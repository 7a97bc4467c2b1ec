/** The request bodies of an issuance: delivery and rendering put together. */
module IssuanceBodies {
  import opened Common
  import opened IssuanceModel
  import opened IssuanceDelivery
  import opened Template

  // The material that was read, in the order of the files.
  function MaterialOf(pieces: seq<string>): Material
    requires |pieces| == 4
  {
    Material(pieces[0], pieces[1], pieces[2], pieces[3])
  }

  // The body of a request whose task has the given body and format.
  function BodyOf(d: Delivery, body: string, format: string, codecs: Codecs): Option<string> {
    var material := if d.material.Some? && |d.material.value| == 4 then Some(MaterialOf(d.material.value)) else None;
    RenderBody(d.task.includeCertificate, body, format, material, codecs)
  }

  /** As long as live issuances use distinct directories, the body sent for a job is the task body with
      every placeholder replaced by the pieces that this job obtained, and nothing else changed. */
  lemma BodyCarriesOwnIssuance(
    states: seq<System>, actions: seq<Action>, n: nat, k: nat, segments: seq<Segment>, format: string, codecs: Codecs)
    requires IsRun(states, actions) && n < |states|
    requires forall i :: 0 <= i < n ==> DistinctDirs(states[i])
    requires k < |states[n].w.deliveries| && states[n].w.deliveries[k].material.Some?
    requires states[n].w.deliveries[k].task.includeCertificate
    requires IsReading(segments, NAMES) && !Blank(TextOf(segments))
    ensures var d, issues := states[n].w.deliveries[k], states[n].w.issues;
            d.job in issues && issues[d.job].resource.Some?
    ensures var d, issues := states[n].w.deliveries[k], states[n].w.issues;
            var res, f := issues[d.job].resource.value, ResolveCertificateFormat(format, TextOf(segments));
            var own := Material(res.cert, res.issuer, res.cert + res.issuer, res.key);
            var sent := BodyOf(d, TextOf(segments), format, codecs);
            if f == PKCS12 then
              sent == match codecs.pkcs12(own)
                      case None => None
                      case Some(archive) =>
                        Some(Render(segments, name => ValueOf(name, own, archive, f, codecs.escape)))
            else f == PEM && sent == Some(Render(segments, name => ValueOf(name, own, "", PEM, codecs.escape)))
  {
    DeliversOwnIssuance(states, actions, n, k);
    var d := states[n].w.deliveries[k];
    RenderBodySubstitutes(segments, format, MaterialOf(d.material.value), codecs);
  }

  /** A task with a blank body sends the JSON object of those pieces, with the archive built from them
      only when the task states that format. */
  lemma BlankBodyCarriesOwnIssuance(
    states: seq<System>, actions: seq<Action>, n: nat, k: nat, body: string, format: string, codecs: Codecs)
    requires IsRun(states, actions) && n < |states|
    requires forall i :: 0 <= i < n ==> DistinctDirs(states[i])
    requires k < |states[n].w.deliveries| && states[n].w.deliveries[k].material.Some?
    requires states[n].w.deliveries[k].task.includeCertificate && Blank(body)
    ensures var d, issues := states[n].w.deliveries[k], states[n].w.issues;
            d.job in issues && issues[d.job].resource.Some?
    ensures var d, issues := states[n].w.deliveries[k], states[n].w.issues;
            var res := issues[d.job].resource.value;
            var own := Material(res.cert, res.issuer, res.cert + res.issuer, res.key);
            var sent := BodyOf(d, body, format, codecs);
            if ToLower(TrimSpace(format)) != PKCS12 then sent == Some(codecs.encode(DefaultPayload(own, "", PEM)))
            else sent == match codecs.pkcs12(own)
                         case None => None
                         case Some(archive) => Some(codecs.encode(DefaultPayload(own, archive, PKCS12)))
  {
    DeliversOwnIssuance(states, actions, n, k);
    BlankBodySendsAll(body, format, MaterialOf(states[n].w.deliveries[k].material.value), codecs);
  }
}
