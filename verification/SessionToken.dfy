/** Session tokens: issued as an encoded payload and its signature, verified back into claims. */
module SessionToken {
  import opened Text
  import opened Encodings

  const PIPE: Byte := 124
  const DOT: Byte := 46

  /** The identity a token carries; an API key's identity is not part of it. */
  datatype Claims = Claims(user: Uuid, tenant: Option<Uuid>, role: Bytes, mfaPending: bool)

  datatype Refusal =
    | BadFormat | BadSignatureEncoding | BadSignature | BadPayloadEncoding | BadPayload
    | BadUser | BadTenant | BadIssuedTime | BadExpiryTime | Expired

  datatype Verdict = Accepted(claims: Claims) | Refused(reason: Refusal)

  /** Whole seconds of a time in nanoseconds, rounded down. */
  function Unix(t: int): (s: int) {
    t / 1_000_000_000
  }

  function TenantField(tenant: Option<Uuid>): (s: Bytes) {
    if tenant.None? then [] else UuidString(tenant.value)
  }

  function FlagField(set_: bool): (s: Bytes) {
    if set_ then [49] else [48]
  }

  function Payload(c: Claims, issued: int, expires: int): (s: Bytes) {
    UuidString(c.user) + [PIPE] + TenantField(c.tenant) + [PIPE] + c.role + [PIPE] + PrintInt(issued) + [PIPE] +
    PrintInt(expires) + [PIPE] + FlagField(c.mfaPending)
  }

  /** A token signed with `mac`, issued at time `now` with a lifetime of `ttl`. */
  function Issue(mac: Bytes -> Bytes, c: Claims, now: int, ttl: int): (token: Bytes) {
    var payload := Encode(Payload(c, Unix(now), Unix(now + ttl)));
    payload + [DOT] + Encode(mac(payload))
  }

  /** Reads the fields of a payload at time `now`. */
  function ReadFields(fields: seq<Bytes>, now: int): (v: Verdict)
    requires |fields| > 0
  {
    if |fields| != 5 && |fields| != 6 then Refused(BadPayload)
    else
      var user := ParseUuid(fields[0]);
      var tenant := if fields[1] == [] then None else ParseUuid(fields[1]);
      var issued, expires := ScanInt(fields[3]), ScanInt(fields[4]);
      if user.None? then Refused(BadUser)
      else if fields[1] != [] && tenant.None? then Refused(BadTenant)
      else if issued.None? then Refused(BadIssuedTime)
      else if expires.None? then Refused(BadExpiryTime)
      else if Unix(now) > expires.value then Refused(Expired)
      else Accepted(Claims(user.value, tenant, fields[2], |fields| == 6 && fields[5] == [49]))
  }

  /** Checks a token at time `now`. */
  function Verify(mac: Bytes -> Bytes, token: Bytes, now: int): (v: Verdict) {
    if DOT !in token then Refused(BadFormat)
    else
      var i := IndexOf(token, DOT);
      var payload, signature := token[..i], Decode(token[i + 1..]);
      if signature.None? then Refused(BadSignatureEncoding)
      else if signature.value != mac(payload) then Refused(BadSignature)
      else
        var plain := Decode(payload);
        if plain.None? then Refused(BadPayloadEncoding)
        else ReadFields(Split(plain.value, PIPE), now)
  }

  // ---- Splitting the payload ----

  /** The payload's fields as a reader sees them: the role contributes one field more than it has separators. */
  function Fields(c: Claims, issued: int, expires: int): (fields: seq<Bytes>) {
    [UuidString(c.user), TenantField(c.tenant)] + Split(c.role, PIPE) +
    [PrintInt(issued), PrintInt(expires), FlagField(c.mfaPending)]
  }

  lemma FieldsSeparated(c: Claims, issued: int, expires: int)
    ensures Separated(Fields(c, issued, expires), PIPE)
  {
    if PIPE in UuidString(c.user) { UuidBytes(c.user, PIPE); }
    if c.tenant.Some? && PIPE in UuidString(c.tenant.value) { UuidBytes(c.tenant.value, PIPE); }
    if PIPE in PrintInt(issued) { PrintedBytes(issued, PIPE); }
    if PIPE in PrintInt(expires) { PrintedBytes(expires, PIPE); }
  }

  lemma JoinPair(a: Bytes, b: Bytes)
    ensures Join([a, b], PIPE) == a + [PIPE] + b
  {
  }

  lemma JoinTriple(a: Bytes, b: Bytes, c: Bytes)
    ensures Join([a, b, c], PIPE) == a + [PIPE] + b + [PIPE] + c
  {
    JoinCons(a, [b, c], PIPE);
    JoinPair(b, c);
    assert [a] + [b, c] == [a, b, c];
  }

  lemma FieldsJoin(c: Claims, issued: int, expires: int)
    ensures Join(Fields(c, issued, expires), PIPE) == Payload(c, issued, expires)
  {
    var u, t, i, e, f :=
      UuidString(c.user), TenantField(c.tenant), PrintInt(issued), PrintInt(expires), FlagField(c.mfaPending);
    JoinAround(u, t, c.role, i, e, f);
  }

  lemma JoinAround(u: Bytes, t: Bytes, role: Bytes, i: Bytes, e: Bytes, f: Bytes)
    ensures Join([u, t] + Split(role, PIPE) + [i, e, f], PIPE) ==
      u + [PIPE] + t + [PIPE] + role + [PIPE] + i + [PIPE] + e + [PIPE] + f
  {
    var roles := Split(role, PIPE);
    JoinConcat([u, t] + roles, [i, e, f], PIPE);
    JoinConcat([u, t], roles, PIPE);
    JoinPair(u, t);
    JoinSplit(role, PIPE);
    JoinTriple(i, e, f);
    var front := u + [PIPE] + t + [PIPE] + role;
    assert front + [PIPE] + (i + [PIPE] + e + [PIPE] + f) == front + [PIPE] + i + [PIPE] + e + [PIPE] + f;
  }

  lemma PayloadSplits(c: Claims, issued: int, expires: int)
    ensures Split(Payload(c, issued, expires), PIPE) == Fields(c, issued, expires)
  {
    FieldsSeparated(c, issued, expires);
    FieldsJoin(c, issued, expires);
    SplitJoin(Fields(c, issued, expires), PIPE);
  }

  lemma ReadWritten(c: Claims, issued: int, expires: int, now: int)
    requires IsInt64(issued) && IsInt64(expires)
    ensures ReadFields(Fields(c, issued, expires), now) ==
      if PIPE in c.role then Refused(BadPayload)
      else if Unix(now) > expires then Refused(Expired)
      else Accepted(c)
  {
    var fields := Fields(c, issued, expires);
    if PIPE in c.role {
      assert |Split(c.role, PIPE)| >= 2;
    } else {
      assert Split(c.role, PIPE) == [c.role];
      assert fields == [UuidString(c.user), TenantField(c.tenant), c.role, PrintInt(issued), PrintInt(expires),
                        FlagField(c.mfaPending)];
      ParseUuidString(c.user);
      if c.tenant.Some? { ParseUuidString(c.tenant.value); }
      ScanPrint(issued);
      ScanPrint(expires);
    }
  }

  // ---- The main results ----

  lemma VerifySigned(mac: Bytes -> Bytes, plain: Bytes, now: int)
    ensures var payload := Encode(plain);
      Verify(mac, payload + [DOT] + Encode(mac(payload)), now) == ReadFields(Split(plain, PIPE), now)
  {
    var payload := Encode(plain);
    var signature := mac(payload);
    DecodeEncode(plain);
    DecodeEncode(signature);
    FirstSeparator(payload, DOT, Encode(signature));
  }

  /**
   * What verifying an issued token gives, for every identity and every pair of times: its claims until its
   * lifetime is over, a refusal after that, and always a refusal when the role holds a field separator.
   */
  lemma IssueVerify(mac: Bytes -> Bytes, c: Claims, issuedAt: int, ttl: int, now: int)
    requires IsInt64(Unix(issuedAt)) && IsInt64(Unix(issuedAt + ttl))
    ensures Verify(mac, Issue(mac, c, issuedAt, ttl), now) ==
      if PIPE in c.role then Refused(BadPayload)
      else if Unix(now) > Unix(issuedAt + ttl) then Refused(Expired)
      else Accepted(c)
  {
    var issued, expires := Unix(issuedAt), Unix(issuedAt + ttl);
    VerifySigned(mac, Payload(c, issued, expires), now);
    PayloadSplits(c, issued, expires);
    ReadWritten(c, issued, expires, now);
  }

  /**
   * In nanoseconds: an issued token whose role holds no separator gives its claims until the end of the whole second
   * in which its lifetime ends, and is refused as expired from then on.
   */
  lemma IssuedUntil(mac: Bytes -> Bytes, c: Claims, issuedAt: int, ttl: int, now: int)
    requires IsInt64(Unix(issuedAt)) && IsInt64(Unix(issuedAt + ttl)) && PIPE !in c.role
    ensures var end := issuedAt + ttl;
      Verify(mac, Issue(mac, c, issuedAt, ttl), now) ==
      if now < end - end % 1_000_000_000 + 1_000_000_000 then Accepted(c) else Refused(Expired)
  {
    IssueVerify(mac, c, issuedAt, ttl, now);
    WholeSeconds(now, issuedAt + ttl);
  }

  lemma WholeSeconds(now: int, end: int)
    ensures Unix(now) > Unix(end) <==> now >= end - end % 1_000_000_000 + 1_000_000_000
  {
  }

  /** A token without the flag field, as older versions issued them, is read as one without a pending second factor. */
  lemma FlaglessToken(mac: Bytes -> Bytes, c: Claims, issued: int, expires: int, now: int)
    requires IsInt64(issued) && IsInt64(expires) && PIPE !in c.role
    ensures var plain := UuidString(c.user) + [PIPE] + TenantField(c.tenant) + [PIPE] + c.role + [PIPE] +
                         PrintInt(issued) + [PIPE] + PrintInt(expires);
      var payload := Encode(plain);
      Verify(mac, payload + [DOT] + Encode(mac(payload)), now) ==
      if Unix(now) > expires then Refused(Expired) else Accepted(c.(mfaPending := false))
  {
    var fields := [UuidString(c.user), TenantField(c.tenant), c.role, PrintInt(issued), PrintInt(expires)];
    FlaglessSplits(c, issued, expires, fields);
    VerifySigned(mac, Join(fields, PIPE), now);
    ReadFlagless(c, issued, expires, now, fields);
  }

  lemma ReadFlagless(c: Claims, issued: int, expires: int, now: int, fields: seq<Bytes>)
    requires IsInt64(issued) && IsInt64(expires)
    requires fields == [UuidString(c.user), TenantField(c.tenant), c.role, PrintInt(issued), PrintInt(expires)]
    ensures ReadFields(fields, now) ==
      if Unix(now) > expires then Refused(Expired) else Accepted(c.(mfaPending := false))
  {
    ParseUuidString(c.user);
    if c.tenant.Some? { ParseUuidString(c.tenant.value); }
    ScanPrint(issued);
    ScanPrint(expires);
  }

  lemma FlaglessSplits(c: Claims, issued: int, expires: int, fields: seq<Bytes>)
    requires fields == [UuidString(c.user), TenantField(c.tenant), c.role, PrintInt(issued), PrintInt(expires)]
    requires PIPE !in c.role
    ensures Join(fields, PIPE) == UuidString(c.user) + [PIPE] + TenantField(c.tenant) + [PIPE] + c.role + [PIPE] +
                                  PrintInt(issued) + [PIPE] + PrintInt(expires)
    ensures Split(Join(fields, PIPE), PIPE) == fields
  {
    var u, t, i, e := UuidString(c.user), TenantField(c.tenant), PrintInt(issued), PrintInt(expires);
    JoinTriple(u, t, c.role);
    JoinPair(i, e);
    JoinConcat([u, t, c.role], [i, e], PIPE);
    assert fields == [u, t, c.role] + [i, e];
    var all := Fields(c, issued, expires);
    FieldsSeparated(c, issued, expires);
    assert Split(c.role, PIPE) == [c.role];
    assert fields == all[..5];
    SplitJoin(fields, PIPE);
  }

  /** An accepted token is signed: what follows its first dot decodes to the signature of what precedes it. */
  lemma AcceptedIsSigned(mac: Bytes -> Bytes, payload: Bytes, rest: Bytes, now: int)
    requires DOT !in payload && Verify(mac, payload + [DOT] + rest, now).Accepted?
    ensures Decode(rest) == Some(mac(payload))
  {
    FirstSeparator(payload, DOT, rest);
  }

  /** Beside an accepted token, another signature text for its payload is accepted exactly when it decodes alike. */
  lemma PayloadDecides(mac: Bytes -> Bytes, payload: Bytes, rest: Bytes, other: Bytes, now: int)
    requires DOT !in payload && Verify(mac, payload + [DOT] + rest, now).Accepted?
    ensures Verify(mac, payload + [DOT] + other, now) == Verify(mac, payload + [DOT] + rest, now) <==>
      Decode(other) == Decode(rest)
  {
    AcceptedIsSigned(mac, payload, rest, now);
    FirstSeparator(payload, DOT, rest);
    FirstSeparator(payload, DOT, other);
  }

  /** A token accepted at some time is accepted, with the same claims, at every earlier time. */
  lemma ExpiryIsMonotone(mac: Bytes -> Bytes, token: Bytes, t0: int, t1: int)
    requires t0 <= t1
    ensures Verify(mac, token, t1).Accepted? ==> Verify(mac, token, t0) == Verify(mac, token, t1)
  {
    assert Unix(t0) <= Unix(t1);
  }
}
