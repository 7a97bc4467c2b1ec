/** Records, the subject names of their certificates and the directory the files go to
    (backend/pkg/dns/certificate.go). */
module CertificateNames {
  import opened Common

  const PURPOSE_DDNS := 1
  const PURPOSE_CERT := 2
  const PURPOSE_BOTH := 3

  // A row of the records table; the token and the ACME e-mail play no part here.
  datatype Record = Record(
    id: nat, zoneId: int, domain: string, name: string, ttl: int,
    purpose: int, includeWildcard: bool)

  predicate DoesDdns(purpose: int) {
    purpose == PURPOSE_DDNS || purpose == PURPOSE_BOTH
  }

  predicate DoesCert(purpose: int) {
    purpose == PURPOSE_CERT || purpose == PURPOSE_BOTH
  }

  function PrimaryName(record: Record): string {
    var domain := TrimSuffix(record.domain, ".");
    if record.name == "@" || record.name == "" then domain
    else if record.name == "*" then "*." + domain
    else record.name + "." + domain
  }

  function BuildDomains(record: Record): seq<string> {
    var primary := PrimaryName(record);
    var wildcard := "*." + TrimPrefix(primary, "*.");
    if record.includeWildcard && wildcard != primary then [primary, wildcard] else [primary]
  }

  // strings.ReplaceAll(s, "*", "wildcard")
  function SpellStars(s: string): string {
    if s == "" then ""
    else (if s[0] == '*' then "wildcard" else [s[0]]) + SpellStars(s[1..])
  }

  // The last path element of the record's certificate directory.
  function DirBase(record: Record): string {
    SpellStars(TrimPrefix(BuildDomains(record)[0], "*."))
  }

  // certificateDir. The data directory in front is the same for all records and is not modelled.
  function CertificateDir(record: Record): string {
    "certs/" + DirBase(record)
  }

  /** Two records write to the same directory. */
  predicate ShareDirectory(a: Record, b: Record) {
    CertificateDir(a) == CertificateDir(b)
  }

  lemma {:induction false} SpellStarsWithout(s: string)
    requires '*' !in s
    ensures SpellStars(s) == s
  {
    if s != "" {
      SpellStarsWithout(s[1..]);
      assert s == [s[0]] + s[1..];
    }
  }

  predicate IsApexName(name: string) {
    name == "@" || name == "" || name == "*"
  }

  lemma {:induction false} SpellStarsAppend(a: string, b: string)
    ensures SpellStars(a + b) == SpellStars(a) + SpellStars(b)
  {
    if a == "" {
      assert a + b == b;
    } else {
      SpellStarsAppend(a[1..], b);
      assert (a + b)[0] == a[0] && (a + b)[1..] == a[1..] + b;
      var head := if a[0] == '*' then "wildcard" else [a[0]];
      assert head + (SpellStars(a[1..]) + SpellStars(b)) == head + SpellStars(a[1..]) + SpellStars(b);
    }
  }

  // What a record name puts in front of the domain in the directory name. A domain that itself starts
  // with a star label loses it in the directory of the apex only.
  function Label(name: string, domain: string): string {
    if name == "@" || name == "" then ""
    else (if name == "*" then "" else SpellStars(TrimPrefix(name, "*.")) + ".")
         + (if HasPrefix(domain, "*.") then "wildcard." else "")
  }

  /** The directory name of every record: its label and the domain. */
  lemma DirBaseOf(r: Record)
    ensures var domain := TrimSuffix(r.domain, ".");
            DirBase(r) == Label(r.name, domain) + SpellStars(TrimPrefix(domain, "*."))
  {
    var domain := TrimSuffix(r.domain, ".");
    assert BuildDomains(r)[0] == PrimaryName(r);
    if r.name != "@" && r.name != "" {
      StarLabel(domain);
      var front := if r.name == "*" then "" else TrimPrefix(r.name, "*.") + ".";
      assert TrimPrefix(PrimaryName(r), "*.") == front + domain by {
        TrimmedPrimary(r.name, domain);
      }
      SpellStarsAppend(front, domain);
      if r.name != "*" {
        SpellStarsAppend(TrimPrefix(r.name, "*."), ".");
        assert SpellStars(".") == ".";
      }
    }
  }

  lemma TrimmedPrimary(name: string, domain: string)
    ensures TrimPrefix("*." + domain, "*.") == domain
    ensures name != "*" && name != "" ==>
              TrimPrefix(name + "." + domain, "*.") == TrimPrefix(name, "*.") + "." + domain
  {
    assert ("*." + domain)[..2] == "*." && ("*." + domain)[2..] == domain;
    if name != "*" && name != "" {
      var all := name + "." + domain;
      if |name| >= 2 {
        assert all[..2] == name[..2] && all[2..] == name[2..] + "." + domain;
      } else {
        assert name == [name[0]] && all[..2][0] == name[0];
      }
    }
  }

  lemma StarLabel(domain: string)
    ensures SpellStars(domain)
         == (if HasPrefix(domain, "*.") then "wildcard." else "") + SpellStars(TrimPrefix(domain, "*."))
  {
    if HasPrefix(domain, "*.") {
      assert domain == "*." + domain[2..];
      SpellStarsAppend("*.", domain[2..]);
      assert "*."[1..] == "." && SpellStars(".") == "." && SpellStars("*.") == "wildcard" + SpellStars(".");
    }
  }

  /** Exactly which records of one domain share a directory, whatever their names: those with equal
      labels. */
  lemma SameDomainSharing(a: Record, b: Record)
    requires a.domain == b.domain
    ensures var domain := TrimSuffix(a.domain, ".");
            ShareDirectory(a, b) <==> Label(a.name, domain) == Label(b.name, domain)
  {
    var domain := TrimSuffix(a.domain, ".");
    var rest := SpellStars(TrimPrefix(domain, "*."));
    var x, y := Label(a.name, domain), Label(b.name, domain);
    DirBaseOf(a);
    DirBaseOf(b);
    assert CertificateDir(a)[6..] == x + rest && CertificateDir(b)[6..] == y + rest;
    if ShareDirectory(a, b) {
      assert |x| == |y| && (x + rest)[..|x|] == x && (y + rest)[..|y|] == y;
    }
  }

  /** So the apex and the wildcard record of a zone always share, and so do a name and the wildcard below
      it. */
  lemma WildcardShares(a: Record, b: Record)
    requires a.domain == b.domain && !HasPrefix(TrimSuffix(a.domain, "."), "*.")
    requires (IsApexName(a.name) && IsApexName(b.name))
             || (!IsApexName(a.name) && !HasPrefix(a.name, "*.") && b.name == "*." + a.name)
    ensures ShareDirectory(a, b)
  {
    SameDomainSharing(a, b);
    if !IsApexName(a.name) {
      assert b.name[..2] == "*." && b.name[2..] == a.name;
    }
  }

  /** Names without a star share only if they are equal or both name the apex. */
  lemma PlainNamesShareIff(a: Record, b: Record)
    requires a.domain == b.domain && !HasPrefix(TrimSuffix(a.domain, "."), "*.")
    requires '*' !in a.name && '*' !in b.name
    ensures ShareDirectory(a, b) <==> a.name == b.name || (IsApexName(a.name) && IsApexName(b.name))
  {
    var domain := TrimSuffix(a.domain, ".");
    SameDomainSharing(a, b);
    PlainLabel(a.name, domain);
    PlainLabel(b.name, domain);
    var x, y := Label(a.name, domain), Label(b.name, domain);
    if !IsApexName(a.name) && !IsApexName(b.name) && x == y {
      assert |a.name| == |b.name| && x[..|a.name|] == a.name && y[..|b.name|] == b.name;
    }
  }

  lemma PlainLabel(name: string, domain: string)
    requires '*' !in name && !HasPrefix(domain, "*.")
    ensures Label(name, domain) == if IsApexName(name) then "" else name + "."
  {
    if !IsApexName(name) {
      assert |name| >= 2 ==> name[..2][0] != '*';
      SpellStarsWithout(name);
    }
  }

  /** The subject names: the first is the primary name; the wildcard below it follows exactly when it
      is asked for and the primary is not itself a wildcard, so no name is listed twice. */
  lemma BuildDomainsShape(r: Record)
    ensures BuildDomains(r)[0] == PrimaryName(r)
    ensures 1 <= |BuildDomains(r)| <= 2
    ensures |BuildDomains(r)| == 2 <==> r.includeWildcard && !HasPrefix(PrimaryName(r), "*.")
    ensures |BuildDomains(r)| == 2 ==> BuildDomains(r)[1] == "*." + PrimaryName(r)
  {
    var primary := PrimaryName(r);
    if HasPrefix(primary, "*.") {
      assert primary == primary[..2] + primary[2..];
    } else {
      assert |"*." + primary| == |primary| + 2;
    }
  }
}
