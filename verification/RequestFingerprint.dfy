/** `fingerprintRequest` of apps/api/src/idempotency/idempotency.interceptor.ts. */
module RequestFingerprint {
  import opened JsonText
  import opened CanonicalJson
  import opened CanonicalTies

  const BODY: Text := [0x62, 0x6f, 0x64, 0x79]
  const PARAMS: Text := [0x70, 0x61, 0x72, 0x61, 0x6d, 0x73]
  const CONNECTION_ID: Text := [0x63, 0x6f, 0x6e, 0x6e, 0x65, 0x63, 0x74, 0x69, 0x6f, 0x6e, 0x49, 0x64]

  datatype Parts = Parts(body: Json, params: Json, connectionId: Json)

  /** `value ?? fallback`. */
  function OrElse(value: Json, fallback: Json): Json {
    if Nullish(value) then fallback else value
  }

  function Payload(r: Parts): Json {
    Object([Member(BODY, OrElse(r.body, Null)),
            Member(PARAMS, OrElse(r.params, Object([]))),
            Member(CONNECTION_ID, OrElse(r.connectionId, Null))])
  }

  function Fingerprint(r: Parts, cmp: Comparison, digest: Text -> string): string {
    digest(Print(Payload(r), cmp))
  }

  ghost predicate WellFormedParts(r: Parts) {
    WellFormed(r.body) && WellFormed(r.params) && WellFormed(r.connectionId)
  }

  /** The same body, path parameters and connection, up to member order and defaults. */
  ghost predicate SameRequest(r: Parts, q: Parts) {
    && Same(OrElse(r.body, Null), OrElse(q.body, Null))
    && Same(OrElse(r.params, Object([])), OrElse(q.params, Object([])))
    && Same(OrElse(r.connectionId, Null), OrElse(q.connectionId, Null))
  }

  lemma PayloadKeysDiffer()
    ensures BODY != PARAMS && BODY != CONNECTION_ID && PARAMS != CONNECTION_ID
  {
    assert BODY[0] == 0x62 && PARAMS[0] == 0x70 && CONNECTION_ID[0] == 0x63;
  }

  lemma {:induction false} PayloadWellFormed(r: Parts)
    requires WellFormedParts(r)
    ensures WellFormed(Payload(r))
  {
    PayloadKeysDiffer();
    assert WellFormed(Object([])) && WellFormed(Null);
    hide WellFormed;
    var v := Payload(r);
    assert forall i | 0 <= i < |v.members| :: WellFormed(v.members[i].value);
    assert DistinctKeys(v.members);
    WellFormedObject(v);
  }

  lemma {:induction false} WellFormedObject(v: Json)
    requires v.Object? && DistinctKeys(v.members) && forall i | 0 <= i < |v.members| :: WellFormed(v.members[i].value)
    ensures WellFormed(v)
  {
  }

  lemma {:induction false} PayloadSame(r: Parts, q: Parts)
    ensures Same(Payload(r), Payload(q)) <==> SameRequest(r, q)
  {
    hide Same, HasPartner, HasNamesake;
    PayloadKeysDiffer();
    var v, w := Payload(r), Payload(q);
    if Same(v, w) {
      assert DistinctKeys(w.members);
      SameValueAt(v, w, 0, 0);
      SameValueAt(v, w, 1, 1);
      SameValueAt(v, w, 2, 2);
    }
    if SameRequest(r, q) {
      MatchedInPlace(v, w);
    }
  }

  /** Objects that agree member by member, all defined, are the same. */
  lemma {:induction false} MatchedInPlace(v: Json, w: Json)
    requires v.Object? && w.Object? && |v.members| == |w.members|
    requires forall i | 0 <= i < |v.members| ::
               && v.members[i].key == w.members[i].key && Same(v.members[i].value, w.members[i].value)
               && !v.members[i].value.Undefined? && !w.members[i].value.Undefined?
    ensures Same(v, w)
  {
    hide HasPartner, HasNamesake;
    forall i | 0 <= i < |v.members| ensures HasPartner(v.members[i], w.members) && HasNamesake(w.members[i].key, v.members) {
      IsPartner(v.members[i], w.members, i);
      IsNamesake(w.members[i].key, v.members, i);
    }
  }

  /** The three keys of the payload itself do not compare equal. */
  ghost predicate PayloadKeysApart(cmp: Comparison) {
    cmp(BODY, PARAMS) != 0 && cmp(BODY, CONNECTION_ID) != 0 && cmp(PARAMS, CONNECTION_ID) != 0
  }

  ghost predicate TieFreeParts(r: Parts, cmp: Comparison) {
    TieFree(r.body, cmp) && TieFree(r.params, cmp) && TieFree(r.connectionId, cmp)
  }

  lemma {:induction false} PayloadTieFree(r: Parts, cmp: Comparison)
    requires PayloadKeysApart(cmp) && TieFreeParts(r, cmp)
    ensures TieFree(Payload(r), cmp)
  {
    assert TieFree(Object([]), cmp) && TieFree(Null, cmp);
  }

  /**
   For a request without ties, and a digest that does not collide on the two texts: equal fingerprints
   exactly for the same request.
   */
  lemma FingerprintExact(r: Parts, q: Parts, cmp: Comparison, digest: Text -> string)
    requires WellFormedParts(r) && WellFormedParts(q)
    requires Consistent(cmp) && PayloadKeysApart(cmp) && TieFreeParts(r, cmp)
    requires var x, y := Print(Payload(r), cmp), Print(Payload(q), cmp); digest(x) == digest(y) ==> x == y
    ensures Fingerprint(r, cmp, digest) == Fingerprint(q, cmp, digest) <==> SameRequest(r, q)
  {
    hide Print, Payload, SameRequest, Consistent, TieFree, WellFormed;
    PayloadWellFormed(r);
    PayloadWellFormed(q);
    PayloadTieFree(r, cmp);
    Canonical(Payload(r), Payload(q), cmp);
    PayloadSame(r, q);
  }

  /** Every request that is the same has the same text under it, hence the same fingerprint. */
  ghost predicate Recognised(r: Parts, cmp: Comparison) {
    forall q | WellFormedParts(q) && SameRequest(r, q) :: Print(Payload(r), cmp) == Print(Payload(q), cmp)
  }

  /** A request is recognised however its members are ordered exactly when it has no ties. */
  lemma RecognisedExactlyWhenTieFree(r: Parts, cmp: Comparison)
    requires WellFormedParts(r) && Consistent(cmp) && PayloadKeysApart(cmp)
    ensures Recognised(r, cmp) <==> TieFreeParts(r, cmp)
  {
    hide Print, Payload, SameRequest, Consistent, TieFree, WellFormed, PayloadKeysApart;
    if TieFreeParts(r, cmp) {
      forall q | WellFormedParts(q) && SameRequest(r, q) ensures Print(Payload(r), cmp) == Print(Payload(q), cmp) {
        PayloadWellFormed(r);
        PayloadWellFormed(q);
        PayloadTieFree(r, cmp);
        PayloadSame(r, q);
        SamePrintsAlike(Payload(r), Payload(q), cmp);
      }
    } else if !TieFree(r.body, cmp) {
      var w := TieShows(r.body, cmp);
      TiedPart(r, r.(body := w), 0, w, cmp);
    } else if !TieFree(r.params, cmp) {
      var w := TieShows(r.params, cmp);
      TiedPart(r, r.(params := w), 1, w, cmp);
    } else {
      var w := TieShows(r.connectionId, cmp);
      TiedPart(r, r.(connectionId := w), 2, w, cmp);
    }
  }

  function PartAt(r: Parts, i: nat): Json
    requires i < 3
  {
    if i == 0 then r.body else if i == 1 then r.params else r.connectionId
  }

  /** Another form of one part is another form of the request, and shows in its text. */
  lemma {:induction false} TiedPart(r: Parts, q: Parts, i: nat, w: Json, cmp: Comparison)
    requires i < 3 && PartAt(q, i) == w && WellFormedParts(r) && WellFormed(w)
    requires q == if i == 0 then r.(body := w) else if i == 1 then r.(params := w) else r.(connectionId := w)
    requires Same(PartAt(r, i), w) && Print(PartAt(r, i), cmp) != Print(w, cmp) && !Nullish(w) && !Nullish(PartAt(r, i))
    ensures WellFormedParts(q) && SameRequest(r, q) && Print(Payload(r), cmp) != Print(Payload(q), cmp)
  {
    hide Print, Same, WellFormed;
    SameAsItself(OrElse(r.body, Null));
    SameAsItself(OrElse(r.params, Object([])));
    SameAsItself(OrElse(r.connectionId, Null));
    var v := Payload(r);
    PayloadKeysDiffer();
    assert DistinctKeys(v.members);
    assert Replaced(v, i, w) == Payload(q);
    ValueShows(v, i, w, cmp);
  }
}
