/** Natural-key reconciliation at registration: which stored accounts a request
    matches, and which of them (if any) it is taken to be. */
module Reconcile {
  import opened Domain

  /** A registration request after phone normalisation. */
  datatype RegisterRequest = RegisterRequest(
    mobile: string, email: string, nic: string, govId: Option<int>, roleType: string)

  /** The repository query: the account shares the national ID, the phone or the email. */
  predicate SharesKey(a: AccountState, req: RegisterRequest)
  {
    a.nic == req.nic || a.mobile == req.mobile || a.email == req.email
  }

  /** The filter's comparison on the three natural-key fields. */
  predicate EqualsOnKey(a: AccountState, req: RegisterRequest)
  {
    req.nic == a.nic && req.email == a.email && req.mobile == a.mobile
  }

  /** The indices, in store order, of the accounts the repository query returns. */
  function Matches(store: seq<AccountState>, req: RegisterRequest): (r: seq<nat>)
    ensures forall k :: 0 <= k < |r| ==> r[k] < |store| && SharesKey(store[r[k]], req)
    ensures forall i :: 0 <= i < |store| && SharesKey(store[i], req) ==> i in r
    ensures forall k, l :: 0 <= k < l < |r| ==> r[k] < r[l]
  {
    if |store| == 0 then []
    else
      var rest := Matches(store[..|store| - 1], req);
      if SharesKey(store[|store| - 1], req) then rest + [|store| - 1] else rest
  }

  /** The outcome of the stream filter over several matches. */
  datatype Pick = NoneEqual | Picked(index: nat) | GovIdNull

  /** The first match (in query order) equal to the request on nic, email and mobile.
      The filter's last conjunct compares the request's govId with itself, so it
      holds exactly when that govId is present and throws when it is null. */
  function FirstEqual(store: seq<AccountState>, matches: seq<nat>, req: RegisterRequest): (r: Pick)
    requires forall k :: 0 <= k < |matches| ==> matches[k] < |store|
    ensures r.NoneEqual? <==> forall k :: 0 <= k < |matches| ==> !EqualsOnKey(store[matches[k]], req)
    ensures !r.NoneEqual? ==> (r.Picked? <==> req.govId.Some?)
    ensures r.Picked? ==>
      exists k :: 0 <= k < |matches| && matches[k] == r.index && EqualsOnKey(store[r.index], req) &&
        forall j :: 0 <= j < k ==> !EqualsOnKey(store[matches[j]], req)
  {
    if |matches| == 0 then NoneEqual
    else if EqualsOnKey(store[matches[0]], req) then
      (if req.govId.Some? then Picked(matches[0]) else GovIdNull)
    else
      var r := FirstEqual(store, matches[1..], req);
      if r.Picked? then
        assert matches[1..][0] == matches[1];
        r
      else r
  }

  /** Which record the registration continues with. */
  datatype Target = Conflict | FilterFault | Existing(index: nat) | Create

  /** Zero matches create a record; one match is reused whatever it shares;
      several matches must contain one equal on nic, email and mobile. */
  function Resolve(store: seq<AccountState>, req: RegisterRequest): (r: Target)
    ensures r.Existing? ==> r.index < |store| && SharesKey(store[r.index], req)
    ensures r.Create? <==> forall i :: 0 <= i < |store| ==> !SharesKey(store[i], req)
    ensures |Matches(store, req)| == 1 ==> r == Existing(Matches(store, req)[0])
    ensures |Matches(store, req)| > 1 ==>
      (r.Conflict? <==> forall i :: 0 <= i < |store| ==> !EqualsOnKey(store[i], req))
    ensures |Matches(store, req)| > 1 && r.Existing? ==> EqualsOnKey(store[r.index], req)
    ensures r.FilterFault? ==> req.govId.None?
    // with several matches, the filter throws exactly when it reaches an equal record with a null govId
    ensures |Matches(store, req)| > 1 ==>
      (r.FilterFault? <==> req.govId.None? && exists i :: 0 <= i < |store| && EqualsOnKey(store[i], req))
    // and the record it reuses is the first equal one in store order
    ensures |Matches(store, req)| > 1 && r.Existing? ==> forall j :: 0 <= j < r.index ==> !EqualsOnKey(store[j], req)
  {
    var m := Matches(store, req);
    if |m| == 0 then
      Create
    else if |m| > 1 then
      match FirstEqual(store, m, req)
      case NoneEqual =>
        Conflict
      case GovIdNull => FilterFault
      case Picked(i) =>
        PickedIsFirstInStore(store, req, i);
        Existing(i)
    else
      assert SharesKey(store[m[0]], req);
      Existing(m[0])
  }

  /** The query returns records in store order, so the filter's first equal match is
      the first record of the whole store that equals the request on all three keys. */
  lemma PickedIsFirstInStore(store: seq<AccountState>, req: RegisterRequest, i: nat)
    requires FirstEqual(store, Matches(store, req), req) == Picked(i)
    ensures forall j :: 0 <= j < i ==> !EqualsOnKey(store[j], req)
  {
    var m := Matches(store, req);
    var k :| 0 <= k < |m| && m[k] == i && EqualsOnKey(store[i], req) &&
      forall l :: 0 <= l < k ==> !EqualsOnKey(store[m[l]], req);
    NoEarlierEqual(store, req, m, k);
  }

  /** Over indices in increasing order that cover every sharing record, no equal record
      before position `k` means no equal record before index `m[k]` in the store. */
  lemma NoEarlierEqual(store: seq<AccountState>, req: RegisterRequest, m: seq<nat>, k: nat)
    requires forall x, y :: 0 <= x < y < |m| ==> m[x] < m[y]
    requires forall x :: 0 <= x < |m| ==> m[x] < |store|
    requires forall j :: 0 <= j < |store| && SharesKey(store[j], req) ==> j in m
    requires k < |m| && forall l :: 0 <= l < k ==> !EqualsOnKey(store[m[l]], req)
    ensures forall j :: 0 <= j < m[k] ==> !EqualsOnKey(store[j], req)
  {
    forall j | 0 <= j < m[k]
      ensures !EqualsOnKey(store[j], req)
    {
      if SharesKey(store[j], req) {
        var l :| 0 <= l < |m| && m[l] == j;
        EarlierIndexFirst(m, l, k);
      }
    }
  }

  /** In a strictly increasing sequence a smaller value sits at an earlier position. */
  lemma EarlierIndexFirst(m: seq<nat>, l: nat, k: nat)
    requires forall x, y :: 0 <= x < y < |m| ==> m[x] < m[y]
    requires l < |m| && k < |m| && m[l] < m[k]
    ensures l < k
  {
  }
}
