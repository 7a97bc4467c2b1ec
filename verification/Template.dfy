/** Task bodies and their placeholders (renderBody of backend/pkg/tasks/task.go). */
module Template {
  import opened Common

  function Token(name: string): string {
    "{{" + name + "}}"
  }

  predicate CleanName(name: string) {
    '{' !in name && '}' !in name
  }

  // ----- strings.NewReplacer over placeholders

  // The first of the names, in argument order, whose placeholder starts the text.
  function FirstMatch(names: seq<string>, s: string): (r: Option<string>)
    ensures r.Some? ==> r.value in names && HasPrefix(s, Token(r.value))
    ensures r.None? ==> forall n :: n in names ==> !HasPrefix(s, Token(n))
  {
    if names == [] then None
    else if HasPrefix(s, Token(names[0])) then Some(names[0])
    else FirstMatch(names[1..], s)
  }

  /** One pass from left to right. What is put in is not looked at again. */
  function Replace(names: seq<string>, value: string -> string, s: string): string
    decreases |s|
  {
    if s == "" then ""
    else
      match FirstMatch(names, s)
      case Some(n) => value(n) + Replace(names, value, s[|Token(n)|..])
      case None => [s[0]] + Replace(names, value, s[1..])
  }

  // ----- the meaning of a body

  // A body is a sequence of characters and placeholders.
  datatype Segment = Lit(c: char) | Hole(name: string)

  function TextOf(segments: seq<Segment>): string {
    if segments == [] then ""
    else (match segments[0] case Lit(c) => [c] case Hole(n) => Token(n)) + TextOf(segments[1..])
  }

  function Render(segments: seq<Segment>, value: string -> string): string {
    if segments == [] then ""
    else (match segments[0] case Lit(c) => [c] case Hole(n) => value(n)) + Render(segments[1..], value)
  }

  /** A reading of a body: every placeholder it names is one of the names, and no placeholder starts at
      what is read as a character. */
  ghost predicate IsReading(segments: seq<Segment>, names: seq<string>) {
    forall k :: 0 <= k < |segments| ==>
      if segments[k].Hole? then segments[k].name in names
      else forall n :: n in names ==> !HasPrefix(TextOf(segments[k..]), Token(n))
  }

  // ----- placeholders cannot be confused

  /** No placeholder is the beginning of another. */
  lemma PrefixFree(s: string, a: string, b: string)
    requires CleanName(a) && CleanName(b) && HasPrefix(s, Token(a)) && HasPrefix(s, Token(b))
    ensures a == b
  {
    TokenEndsAtBrace(s, a);
    TokenEndsAtBrace(s, b);
    assert s[..|Token(a)|][2..2 + |a|] == a && s[..|Token(b)|][2..2 + |b|] == b;
  }

  // Behind the opening braces, the first closing brace ends the name.
  lemma TokenEndsAtBrace(s: string, name: string)
    requires CleanName(name) && HasPrefix(s, Token(name))
    ensures s[2 + |name|] == '}' && forall i :: 2 <= i < 2 + |name| ==> s[i] != '}' && s[i] == name[i - 2]
  {
    var token := Token(name);
    assert forall i :: 0 <= i < |token| ==> s[i] == token[i] by {
      forall i | 0 <= i < |token|
        ensures s[i] == token[i]
      {
        assert s[..|token|][i] == s[i];
      }
    }
    forall i | 2 <= i < 2 + |name|
      ensures s[i] == name[i - 2] && s[i] != '}'
    {
      assert token[i] == name[i - 2];
      assert name[i - 2] in name;
    }
  }

  /** No placeholder starts inside another. */
  lemma NoOverlap(s: string, a: string, b: string, p: nat)
    requires CleanName(a) && CleanName(b)
    requires HasPrefix(s, Token(a)) && 0 < p < |Token(a)| && p <= |s|
    ensures !HasPrefix(s[p..], Token(b))
  {
    if HasPrefix(s[p..], Token(b)) {
      var t := Token(b);
      assert s[p..][..|t|][0] == '{' && s[p..][..|t|][1] == '{';
      assert s[p] == '{' && s[p + 1] == '{';
      BracesOf(s, a);
      assert false;
    }
  }

  lemma BracesOf(s: string, name: string)
    requires CleanName(name) && HasPrefix(s, Token(name))
    ensures forall i :: 2 <= i < |Token(name)| ==> s[i] != '{'
  {
    var token := Token(name);
    forall i | 2 <= i < |token|
      ensures s[i] != '{'
    {
      assert s[..|token|][i] == s[i];
      if i < 2 + |name| {
        assert token[i] == name[i - 2] && name[i - 2] in name;
      }
    }
  }

  // ----- the replacement means substitution

  lemma TextOfCons(segments: seq<Segment>)
    requires segments != []
    ensures segments[0].Lit? ==> TextOf(segments) != "" && TextOf(segments)[0] == segments[0].c
                                 && TextOf(segments)[1..] == TextOf(segments[1..])
    ensures segments[0].Hole? ==> HasPrefix(TextOf(segments), Token(segments[0].name))
                                  && TextOf(segments)[|Token(segments[0].name)|..] == TextOf(segments[1..])
  {
  }

  /** The pass computes the substitution of any reading of the body; so all readings of a body render
      the same, in whatever order the placeholders are listed. */
  lemma {:induction false} ReplaceIsRender(names: seq<string>, value: string -> string, segments: seq<Segment>)
    requires (forall n :: n in names ==> CleanName(n)) && IsReading(segments, names)
    ensures Replace(names, value, TextOf(segments)) == Render(segments, value)
  {
    if segments != [] {
      var s := TextOf(segments);
      TextOfCons(segments);
      assert segments[0..] == segments;
      assert IsReading(segments[1..], names) by {
        forall k | 0 <= k < |segments| - 1
          ensures segments[1..][k] == segments[k + 1] && segments[1..][k..] == segments[k + 1..]
        {
        }
      }
      ReplaceIsRender(names, value, segments[1..]);
      if segments[0].Hole? {
        var found := FirstMatch(names, s).value;
        PrefixFree(s, found, segments[0].name);
      }
    }
  }

  /** Only placeholders are replaced: putting each in for itself changes nothing. */
  lemma {:induction false} OnlyHolesChange(segments: seq<Segment>, value: string -> string)
    requires forall n :: value(n) == Token(n)
    ensures Render(segments, value) == TextOf(segments)
  {
    if segments != [] {
      OnlyHolesChange(segments[1..], value);
    }
  }

  /** What is put in for one placeholder stands between what the parts before and behind it become. */
  lemma {:induction false} RenderAppend(a: seq<Segment>, b: seq<Segment>, value: string -> string)
    ensures Render(a + b, value) == Render(a, value) + Render(b, value)
  {
    if a == [] {
      assert a + b == b;
    } else {
      assert (a + b)[0] == a[0] && (a + b)[1..] == a[1..] + b;
      RenderAppend(a[1..], b, value);
    }
  }

  /** Every body has a reading: cut at the placeholders from left to right. */
  function Reading(names: seq<string>, s: string): (segments: seq<Segment>)
    decreases |s|
  {
    if s == "" then []
    else
      match FirstMatch(names, s)
      case Some(n) => [Hole(n)] + Reading(names, s[|Token(n)|..])
      case None => [Lit(s[0])] + Reading(names, s[1..])
  }

  lemma {:induction false} ReadingReads(names: seq<string>, s: string)
    ensures TextOf(Reading(names, s)) == s && IsReading(Reading(names, s), names)
    decreases |s|
  {
    if s != "" {
      var segments := Reading(names, s);
      var rest := if segments[0].Hole? then s[|Token(segments[0].name)|..] else s[1..];
      ReadingReads(names, rest);
      assert segments[1..] == Reading(names, rest);
      assert TextOf(segments) == s;
      forall k | 0 <= k < |segments|
        ensures if segments[k].Hole? then segments[k].name in names
                else forall n :: n in names ==> !HasPrefix(TextOf(segments[k..]), Token(n))
      {
        if k == 0 {
          assert segments[0..] == segments;
        } else {
          assert segments[k] == segments[1..][k - 1] && segments[k..] == segments[1..][k - 1..];
        }
      }
    }
  }

  /** No placeholder is overlooked: wherever one stands in the body, the reading has it as such. */
  lemma {:induction false} EveryPlaceholderIsRead(names: seq<string>, s: string, p: nat, name: string)
    requires (forall n :: n in names ==> CleanName(n)) && name in names
    requires p <= |s| && HasPrefix(s[p..], Token(name))
    ensures exists k :: 0 <= k < |Reading(names, s)| && Reading(names, s)[k] == Hole(name)
                        && TextOf(Reading(names, s)[..k]) == s[..p]
    decreases |s|
  {
    var segments := Reading(names, s);
    if p == 0 {
      assert s[0..] == s;
      PrefixFree(s, FirstMatch(names, s).value, name);
      assert segments[0] == Hole(name) && segments[..0] == [] && s[..0] == "";
    } else {
      var first := FirstMatch(names, s);
      var width := if first.Some? then |Token(first.value)| else 1;
      if first.Some? && p < width {
        NoOverlap(s, first.value, name, p);
      }
      assert s[width..][p - width..] == s[p..];
      EveryPlaceholderIsRead(names, s[width..], p - width, name);
      var tail := Reading(names, s[width..]);
      var k :| 0 <= k < |tail| && tail[k] == Hole(name) && TextOf(tail[..k]) == s[width..][..p - width];
      HoleBehind(names, s, width, k, p, name);
    }
  }

  // A hole of the rest of the body is a hole of the body.
  lemma HoleBehind(names: seq<string>, s: string, width: nat, k: nat, p: nat, name: string)
    requires s != "" && width <= p <= |s|
    requires width == match FirstMatch(names, s) case Some(n) => |Token(n)| case None => 1
    requires k < |Reading(names, s[width..])| && Reading(names, s[width..])[k] == Hole(name)
    requires TextOf(Reading(names, s[width..])[..k]) == s[width..][..p - width]
    ensures k + 1 < |Reading(names, s)| && Reading(names, s)[k + 1] == Hole(name)
    ensures TextOf(Reading(names, s)[..k + 1]) == s[..p]
  {
    var segments, tail := Reading(names, s), Reading(names, s[width..]);
    assert segments == [segments[0]] + tail && TextOf([segments[0]]) == s[..width] by {
      assert [segments[0]][1..] == [];
    }
    assert segments[..k + 1] == [segments[0]] + tail[..k];
    TextOfAppend([segments[0]], tail[..k]);
    TakeInTwo(s, width, p);
  }

  lemma TakeInTwo(s: string, i: nat, j: nat)
    requires i <= j <= |s|
    ensures s[..j] == s[..i] + s[i..][..j - i]
  {
  }

  lemma {:induction false} TextOfAppend(a: seq<Segment>, b: seq<Segment>)
    ensures TextOf(a + b) == TextOf(a) + TextOf(b)
  {
    if a == [] {
      assert a + b == b;
    } else {
      assert (a + b)[0] == a[0] && (a + b)[1..] == a[1..] + b;
      TextOfAppend(a[1..], b);
    }
  }

  /** The order in which the placeholders are given to the replacer is irrelevant. */
  lemma OrderIsIrrelevant(names: seq<string>, other: seq<string>, value: string -> string, s: string)
    requires forall n :: n in names <==> n in other
    requires forall n :: n in names ==> CleanName(n)
    ensures Replace(names, value, s) == Replace(other, value, s)
  {
    var segments := Reading(names, s);
    ReadingReads(names, s);
    ReplaceIsRender(names, value, segments);
    ReplaceIsRender(other, value, segments);
  }

  // ----- the body of a task

  const NAMES := [
    "cert", "chain", "fullchain", "certificate", "private_key", "pkcs12", "pkcs12_base64", "certificate_format",
    "cert_json", "chain_json", "fullchain_json", "certificate_json", "private_key_json", "pkcs12_json",
    "pkcs12_base64_json", "certificate_format_json"]

  lemma NamesAreClean()
    ensures forall n :: n in NAMES ==> CleanName(n)
  {
    assert forall i :: 0 <= i < |NAMES| ==> CleanName(NAMES[i]);
  }

  datatype Material = Material(cert: string, chain: string, fullchain: string, key: string)

  const PEM := "pem"
  const PKCS12 := "pkcs12"

  // strings.ToLower, as far as it can produce a letter of a format name: the ASCII capitals and the
  // Kelvin sign.
  function LowerChar(c: char): char {
    if 'A' <= c <= 'Z' then c - 'A' + 'a' else if c == '\U{212A}' then 'k' else c
  }

  function ToLower(s: string): string {
    seq(|s|, i requires 0 <= i < |s| => LowerChar(s[i]))
  }

  predicate Contains(s: string, part: string) {
    exists p :: 0 <= p <= |s| && HasPrefix(s[p..], part)
  }

  function ResolveCertificateFormat(format: string, body: string): string {
    var f := ToLower(TrimSpace(format));
    if f == PEM then PEM
    else if f == PKCS12 then PKCS12
    else if Contains(body, Token("pkcs12")) || Contains(body, Token("pkcs12_base64")) then PKCS12
    else PEM
  }

  // The value of a placeholder; escape is the JSON string escaping.
  function ValueOf(name: string, m: Material, archive: string, format: string, escape: string -> string): string {
    if name == "cert" then m.cert
    else if name == "chain" then m.chain
    else if name == "fullchain" || name == "certificate" then m.fullchain
    else if name == "private_key" then m.key
    else if name == "pkcs12" || name == "pkcs12_base64" then archive
    else if name == "certificate_format" then format
    else if name == "cert_json" then escape(m.cert)
    else if name == "chain_json" then escape(m.chain)
    else if name == "fullchain_json" || name == "certificate_json" then escape(m.fullchain)
    else if name == "private_key_json" then escape(m.key)
    else if name == "pkcs12_json" || name == "pkcs12_base64_json" then escape(archive)
    else escape(format)
  }

  // The fields of the JSON object that is sent for a blank body.
  function DefaultPayload(m: Material, archive: string, format: string): map<string, string> {
    var fields := map[
      "cert" := m.cert, "chain" := m.chain, "fullchain" := m.fullchain, "private_key" := m.key,
      "certificate" := m.fullchain, "certificate_format" := format];
    if archive != "" then fields["pkcs12" := archive]["pkcs12_base64" := archive] else fields
  }

  // What the source calls for making the body: the base64 archive of the material, JSON string escaping
  // and the JSON encoding of an object.
  datatype Codecs = Codecs(pkcs12: Material -> Option<string>, escape: string -> string,
                           encode: map<string, string> -> string)

  // The archive that goes with the format; None when building it fails.
  function ArchiveFor(format: string, m: Material, codecs: Codecs): Option<string> {
    if format == PKCS12 then codecs.pkcs12(m) else Some("")
  }

  /** The body of the request; None when the material cannot be loaded or the archive not be built. */
  function RenderBody(withCertificate: bool, body: string, format: string, material: Option<Material>, codecs: Codecs)
    : Option<string>
  {
    if !withCertificate then Some(body)
    else if material.None? then None
    else
      var m, f := material.value, ResolveCertificateFormat(format, body);
      match ArchiveFor(f, m, codecs)
      case None => None
      case Some(archive) =>
        if Blank(body) then Some(codecs.encode(DefaultPayload(m, archive, f)))
        else Some(Replace(NAMES, name => ValueOf(name, m, archive, f, codecs.escape), body))
  }

  /** Rendering is substitution: a body that is not blank, with any reading as characters and
      placeholders, is sent with each placeholder replaced by its value and nothing else changed. */
  lemma RenderBodySubstitutes(segments: seq<Segment>, format: string, m: Material, codecs: Codecs)
    requires IsReading(segments, NAMES) && !Blank(TextOf(segments))
    ensures var body := TextOf(segments);
            var f := ResolveCertificateFormat(format, body);
            var sent := RenderBody(true, body, format, Some(m), codecs);
            if f == PKCS12 then
              sent == match codecs.pkcs12(m)
                      case None => None
                      case Some(archive) => Some(Render(segments, name => ValueOf(name, m, archive, f, codecs.escape)))
            else f == PEM && sent == Some(Render(segments, name => ValueOf(name, m, "", PEM, codecs.escape)))
  {
    var body := TextOf(segments);
    var f := ResolveCertificateFormat(format, body);
    var archive := ArchiveFor(f, m, codecs);
    NamesAreClean();
    if archive.Some? {
      ReplaceIsRender(NAMES, name => ValueOf(name, m, archive.value, f, codecs.escape), segments);
    }
  }

  /** A task that does not include the certificate sends its body as it is, placeholders and all; one that does
      sends nothing when the material cannot be loaded. */
  lemma PlainBodyIsSent(body: string, format: string, material: Option<Material>, codecs: Codecs)
    ensures RenderBody(false, body, format, material, codecs) == Some(body)
    ensures RenderBody(true, body, format, None, codecs) == None
  {
  }

  // The same text but for the case of ASCII letters.
  predicate SameButCase(s: string, t: string) {
    |s| == |t| && forall i :: 0 <= i < |s| ==> s[i] == t[i] || ('a' <= t[i] <= 'z' && s[i] == t[i] - 'a' + 'A')
  }

  /** A format may be stated in any case and with spaces around it. */
  lemma FormatInAnyCase(format: string, body: string)
    ensures SameButCase(TrimSpace(format), "pkcs12") ==> ResolveCertificateFormat(format, body) == "pkcs12"
    ensures SameButCase(TrimSpace(format), "pem") ==> ResolveCertificateFormat(format, body) == "pem"
  {
    var f := TrimSpace(format);
    if SameButCase(f, "pkcs12") {
      assert ToLower(f) == "pkcs12";
    }
    if SameButCase(f, "pem") {
      assert ToLower(f) == "pem";
    }
  }

  /** A blank body holds no placeholder, so only a stated format makes it carry the archive; it is sent as
      the JSON object of the material. */
  lemma BlankBodySendsAll(body: string, format: string, m: Material, codecs: Codecs)
    requires Blank(body)
    ensures var archived := ToLower(TrimSpace(format)) == PKCS12;
            var sent := RenderBody(true, body, format, Some(m), codecs);
            if !archived then sent == Some(codecs.encode(DefaultPayload(m, "", PEM)))
            else sent == match codecs.pkcs12(m)
                         case None => None
                         case Some(archive) => Some(codecs.encode(DefaultPayload(m, archive, PKCS12)))
  {
    BlankIffSpaces(body);
    NoPlaceholderIn(body, "pkcs12");
    NoPlaceholderIn(body, "pkcs12_base64");
  }

  lemma NoPlaceholderIn(body: string, name: string)
    requires forall i :: 0 <= i < |body| ==> IsSpace(body[i])
    ensures !Contains(body, Token(name))
  {
    forall p | 0 <= p <= |body|
      ensures !HasPrefix(body[p..], Token(name))
    {
      if HasPrefix(body[p..], Token(name)) {
        StartsWithBrace(body[p..], name);
        assert false;
      }
    }
  }

  lemma StartsWithBrace(s: string, name: string)
    requires HasPrefix(s, Token(name))
    ensures s != "" && s[0] == '{'
  {
    assert s[..|Token(name)|][0] == s[0];
  }

  /** The object holds every piece under its own name, and the archive exactly when there is one. */
  lemma PayloadHoldsAll(m: Material, archive: string, format: string)
    ensures var fields := DefaultPayload(m, archive, format);
            && fields.Keys == {"cert", "chain", "fullchain", "private_key", "certificate", "certificate_format"}
                              + (if archive != "" then {"pkcs12", "pkcs12_base64"} else {})
            && fields["cert"] == m.cert && fields["chain"] == m.chain && fields["private_key"] == m.key
            && fields["fullchain"] == m.fullchain && fields["certificate"] == m.fullchain
            && fields["certificate_format"] == format
            && (archive != "" ==> fields["pkcs12"] == archive && fields["pkcs12_base64"] == archive)
  {
    var keys := [
      "cert", "chain", "fullchain", "private_key", "certificate", "certificate_format", "pkcs12", "pkcs12_base64"];
    assert forall i, j :: 0 <= i < j < |keys| ==> keys[i] != keys[j];
  }

  /** A certificate placeholder alone is sent as its piece of the material, in every format. */
  lemma CertificatesAreSent(format: string, m: Material, codecs: Codecs)
    ensures Sends("cert", m.cert, format, m, codecs)
    ensures Sends("chain", m.chain, format, m, codecs)
    ensures Sends("fullchain", m.fullchain, format, m, codecs)
    ensures Sends("certificate", m.fullchain, format, m, codecs)
  {
    assert Sends("cert", m.cert, format, m, codecs) by {
      assert NAMES[0] == "cert";
      AloneIsSent("cert", m.cert, format, m, codecs);
    }
    assert Sends("chain", m.chain, format, m, codecs) by {
      assert NAMES[1] == "chain";
      AloneIsSent("chain", m.chain, format, m, codecs);
    }
    assert Sends("fullchain", m.fullchain, format, m, codecs) by {
      assert NAMES[2] == "fullchain";
      AloneIsSent("fullchain", m.fullchain, format, m, codecs);
    }
    assert Sends("certificate", m.fullchain, format, m, codecs) by {
      assert NAMES[3] == "certificate";
      AloneIsSent("certificate", m.fullchain, format, m, codecs);
    }
  }

  /** So is the private key; and the archive, which is empty when the format is stated as pem. */
  lemma KeyAndArchiveAreSent(format: string, m: Material, codecs: Codecs)
    ensures Sends("private_key", m.key, format, m, codecs)
    ensures var archive := if ToLower(TrimSpace(format)) == PEM then Some("") else codecs.pkcs12(m);
            && RenderBody(true, Token("pkcs12"), format, Some(m), codecs) == archive
            && RenderBody(true, Token("pkcs12_base64"), format, Some(m), codecs) == archive
  {
    assert Sends("private_key", m.key, format, m, codecs) by {
      assert NAMES[4] == "private_key";
      AloneIsSent("private_key", m.key, format, m, codecs);
    }
    assert NAMES[5] == "pkcs12" && NAMES[6] == "pkcs12_base64";
    ArchiveIsSent("pkcs12", format, m, codecs);
    ArchiveIsSent("pkcs12_base64", format, m, codecs);
  }

  /** The format placeholder alone is sent as the format that was stated, or as pem. */
  lemma FormatIsSent(format: string, m: Material, codecs: Codecs)
    ensures var resolved := ResolveCertificateFormat(format, Token("certificate_format"));
            Sends("certificate_format", resolved, format, m, codecs)
  {
    assert NAMES[7] == "certificate_format";
    AloneIsRead("certificate_format");
    AloneIsRendered([Hole("certificate_format")], "certificate_format", format, m, codecs);
  }

  // The body is the placeholder alone: it is sent as the piece, unless the archive cannot be built.
  predicate Sends(name: string, piece: string, format: string, m: Material, codecs: Codecs) {
    var sent := RenderBody(true, Token(name), format, Some(m), codecs);
    sent == if ArchiveFor(ResolveCertificateFormat(format, Token(name)), m, codecs).None? then None else Some(piece)
  }

  lemma AloneIsRead(name: string)
    requires name in NAMES
    ensures TextOf([Hole(name)]) == Token(name) && IsReading([Hole(name)], NAMES) && !Blank(Token(name))
  {
    assert [Hole(name)][1..] == [];
    BlankIffSpaces(Token(name));
    assert Token(name)[0] == '{';
  }

  lemma AloneRenders(name: string, value: string -> string)
    ensures Render([Hole(name)], value) == value(name)
  {
    assert [Hole(name)][1..] == [];
  }

  lemma AloneIsSent(name: string, piece: string, format: string, m: Material, codecs: Codecs)
    requires name in NAMES
    requires forall archive, f :: ValueOf(name, m, archive, f, codecs.escape) == piece
    ensures Sends(name, piece, format, m, codecs)
  {
    AloneIsRead(name);
    var f := ResolveCertificateFormat(format, Token(name));
    assert RenderBody(true, Token(name), format, Some(m), codecs)
        == match ArchiveFor(f, m, codecs)
           case None => None
           case Some(archive) => Some(ValueOf(name, m, archive, f, codecs.escape)) by {
      AloneIsRendered([Hole(name)], name, format, m, codecs);
    }
  }

  lemma AloneIsRendered(segments: seq<Segment>, name: string, format: string, m: Material, codecs: Codecs)
    requires segments == [Hole(name)] && IsReading(segments, NAMES) && !Blank(TextOf(segments))
    ensures var body := TextOf(segments);
            var f := ResolveCertificateFormat(format, body);
            RenderBody(true, body, format, Some(m), codecs)
            == match ArchiveFor(f, m, codecs)
               case None => None
               case Some(archive) => Some(ValueOf(name, m, archive, f, codecs.escape))
  {
    var f := ResolveCertificateFormat(format, TextOf(segments));
    RenderBodySubstitutes(segments, format, m, codecs);
    var archive := ArchiveFor(f, m, codecs);
    if archive.Some? {
      AloneRenders(name, n => ValueOf(n, m, archive.value, f, codecs.escape));
    }
  }

  lemma ArchiveIsSent(name: string, format: string, m: Material, codecs: Codecs)
    requires (name == "pkcs12" || name == "pkcs12_base64") && name in NAMES
    ensures RenderBody(true, Token(name), format, Some(m), codecs)
         == if ToLower(TrimSpace(format)) == PEM then Some("") else codecs.pkcs12(m)
  {
    AloneIsRead(name);
    AloneIsRendered([Hole(name)], name, format, m, codecs);
    assert Contains(Token(name), Token(name)) by {
      assert Token(name)[0..] == Token(name);
      assert HasPrefix(Token(name)[0..], Token(name));
    }
  }

  // The names that have a JSON variant.
  const PLAIN := [
    "cert", "chain", "fullchain", "certificate", "private_key", "pkcs12", "pkcs12_base64", "certificate_format"]

  lemma JsonNames(k: nat)
    requires k < |PLAIN|
    ensures PLAIN[k] == NAMES[k] && PLAIN[k] + "_json" == NAMES[k + 8]
  {
  }

  lemma PlainAndJson(k: nat, m: Material, archive: string, format: string, escape: string -> string)
    requires k < 8
    ensures ValueOf(NAMES[k + 8], m, archive, format, escape) == escape(ValueOf(NAMES[k], m, archive, format, escape))
  {
  }

  /** Every plain placeholder has a JSON variant, which is sent as the escaped text of the plain one. */
  lemma JsonVariants(k: nat, m: Material, archive: string, format: string, escape: string -> string)
    requires k < |PLAIN|
    ensures PLAIN[k] in NAMES && PLAIN[k] + "_json" in NAMES
    ensures ValueOf(PLAIN[k] + "_json", m, archive, format, escape)
         == escape(ValueOf(PLAIN[k], m, archive, format, escape))
  {
    JsonNames(k);
    PlainAndJson(k, m, archive, format, escape);
  }

  /** A stated format always wins; without one the archive is chosen exactly when one of the two plain
      archive placeholders is a hole of the body. The JSON variants do not count. */
  lemma FormatIsInferredIff(format: string, body: string)
    ensures var f := ToLower(TrimSpace(format));
            (ResolveCertificateFormat(format, body) == PKCS12 || ResolveCertificateFormat(format, body) == PEM)
            && (ResolveCertificateFormat(format, body) == PKCS12
            <==> f == PKCS12
                 || (f != PEM
                     && (Hole("pkcs12") in Reading(NAMES, body) || Hole("pkcs12_base64") in Reading(NAMES, body))))
  {
    NamesAreClean();
    assert NAMES[5] == "pkcs12" && NAMES[6] == "pkcs12_base64";
    ContainsIffHole("pkcs12", body);
    ContainsIffHole("pkcs12_base64", body);
    assert PEM != PKCS12;
  }

  lemma ContainsIffHole(name: string, body: string)
    requires name in NAMES
    ensures Contains(body, Token(name)) <==> Hole(name) in Reading(NAMES, body)
  {
    NamesAreClean();
    if Contains(body, Token(name)) {
      var p :| 0 <= p <= |body| && HasPrefix(body[p..], Token(name));
      EveryPlaceholderIsRead(NAMES, body, p, name);
    }
    if Hole(name) in Reading(NAMES, body) {
      HoleOccurs(NAMES, body, name);
    }
  }

  lemma {:induction false} HoleOccurs(names: seq<string>, s: string, name: string)
    requires Hole(name) in Reading(names, s)
    ensures Contains(s, Token(name))
    decreases |s|
  {
    var segments := Reading(names, s);
    if segments[0] == Hole(name) {
      assert s[0..] == s;
    } else {
      var width := if segments[0].Hole? then |Token(segments[0].name)| else 1;
      assert segments == [segments[0]] + Reading(names, s[width..]);
      HoleOccurs(names, s[width..], name);
      var p :| 0 <= p <= |s[width..]| && HasPrefix(s[width..][p..], Token(name));
      assert s[width + p..] == s[width..][p..];
    }
  }
}
