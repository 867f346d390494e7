/** Client credentials in an HTTP Basic header: `getClientBasicAuth` of controllers/token.go.

    Section 2.3.1 of RFC 6749 has clients form-encode the id and the secret first; clients that send
    them as they are keep working.
  */
module BasicAuth {
  import opened Wrappers
  import opened Text
  import opened FormEncoding

  datatype Credentials = Credentials(id: string, secret: string)

  /** The registered secret of a client id; `None` also stands for a failed lookup. */
  type Registry = string -> Option<string>

  /** `Request.BasicAuth` after base64 decoding: id and secret around the first colon. */
  function UserInfo(payload: string): Option<Credentials> {
    var p := Cut(payload, ':');
    if p.found then Some(Credentials(p.before, p.after)) else None
  }

  /** `getClientBasicAuth` */
  function Resolve(payload: string, registry: Registry): Option<Credentials> {
    match UserInfo(payload)
    case None => None
    case Some(raw) =>
      var id, secret := Unescape(raw.id), Unescape(raw.secret);
      if id.None? || secret.None? || (id.value == raw.id && secret.value == raw.secret) then Some(raw)
      else if registry(raw.id) == Some(raw.secret) then Some(raw)
      else Some(Credentials(id.value, secret.value))
  }

  lemma {:induction false} UnescapeShrinks(s: string)
    ensures Unescape(s).Some? ==> |Unescape(s).value| <= |s|
  {
    if s != "" {
      UnescapeShrinks(s[1..]);
      if |s| >= 3 { UnescapeShrinks(s[3..]); }
    }
  }

  /** Registered credentials sent as they are resolve to themselves exactly when the id has no colon. */
  lemma RawCredentialsResolveExactly(id: string, secret: string, registry: Registry)
    requires registry(id) == Some(secret)
    ensures Resolve(id + ":" + secret, registry) == Some(Credentials(id, secret)) <==> ':' !in id
  {
    if ':' !in id {
      CutAt(id, ':', secret);
    } else {
      var head := Cut(id, ':');
      assert id + ":" + secret == head.before + [':'] + (head.after + ":" + secret);
      CutAt(head.before, ':', head.after + ":" + secret);
      UnescapeShrinks(head.before);
    }
  }

  /** Credentials sent form-encoded resolve to the original pair exactly when encoding changes nothing or
      the encoded pair is not itself registered. */
  lemma EncodedCredentialsResolveExactly(id: string, secret: string, registry: Registry)
    requires IsBytes(id) && IsBytes(secret)
    ensures Resolve(Escape(id) + ":" + Escape(secret), registry) == Some(Credentials(id, secret)) <==>
            || (Escape(id) == id && Escape(secret) == secret)
            || registry(Escape(id)) != Some(Escape(secret))
  {
    EscapeAlphabet(id);
    CutAt(Escape(id), ':', Escape(secret));
    UnescapeEscape(id);
    UnescapeEscape(secret);
  }

  /** What any payload resolves to: nothing without a colon; the two sides of the first colon as they are if they are
      registered or do not both decode; and otherwise the two sides decoded. */
  lemma ResolveExactly(payload: string, registry: Registry)
    ensures Resolve(payload, registry).None? <==> ':' !in payload
    ensures forall id, secret :: ':' !in id && payload == id + ":" + secret ==>
              Resolve(payload, registry) ==
              Some(if registry(id) != Some(secret) && Unescape(id).Some? && Unescape(secret).Some?
                   then Credentials(Unescape(id).value, Unescape(secret).value) else Credentials(id, secret))
  {
    var p := Cut(payload, ':');
    if !p.found { CutNone(payload, ':'); }
    forall id, secret | ':' !in id && payload == id + ":" + secret
      ensures p == Parts(id, secret, true)
    {
      CutAt(id, ':', secret);
    }
  }
}
