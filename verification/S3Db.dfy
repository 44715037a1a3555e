// The records of the object store and the atomic find-and-modify steps on them.
// A step whose query matches no record returns None, the source's ErrNotFound.
module S3Db {
  import opened Common
  import opened Ledger

  datatype State = NoneState | Active | Inactive

  // The states a record may move from, by the state it moves to.
  function Transition(to: State): State {
    match to
    case NoneState => NoneState
    case Active => NoneState
    case Inactive => Active
  }

  // Cookies are digests; they are treated as injective in what they digest.
  datatype OCookie = OCookie(bcookie: string, key: string)

  datatype Bucket = Bucket(bcookie: string, ns: NsId, state: State,
                           cntObjects: int, cntBytes: int, ref: int, rover: int)

  datatype Object = Object(bucket: BucketId, ocookie: OCookie, size: nat, state: State, rover: int)

  datatype Stats = Stats(cntObjects: int, cntBytes: int)

  // An $inc on a bucket record.
  datatype Inc = Inc(objects: int, bytes: int, ref: int, rover: int)

  type Buckets = map<BucketId, Bucket>
  type Objects = map<ObjId, Object>
  type StatsTable = map<NsId, Stats>

  // The part of a bucket record an operation keeps from FindBucket.
  datatype Handle = Handle(id: BucketId, bcookie: string, ns: NsId)

  function Bump(b: Bucket, d: Inc): Bucket {
    b.(cntObjects := b.cntObjects + d.objects, cntBytes := b.cntBytes + d.bytes,
       ref := b.ref + d.ref, rover := b.rover + d.rover)
  }

  // bucketAcct: only an Active bucket is updated.
  function BucketAcct(bs: Buckets, id: BucketId, d: Inc): Option<Buckets> {
    if id in bs && bs[id].state == Active then Some(bs[id := Bump(bs[id], d)]) else None
  }

  // StatsAcct upserts, so it always succeeds.
  function StatsAcct(st: StatsTable, n: NsId, objects: int, bytes: int): StatsTable {
    var cur := if n in st then st[n] else Stats(0, 0);
    st[n := Stats(cur.cntObjects + objects, cur.cntBytes + bytes)]
  }

  function StatsUnacct(st: StatsTable, n: NsId, objects: int, bytes: int): Option<StatsTable> {
    if n in st then Some(StatsAcct(st, n, objects, bytes)) else None
  }

  // dbS3SetOnState on an object record.
  function SetObject(os: Objects, id: ObjId, to: State, rover: Option<int>): Option<Objects> {
    if id in os && os[id].state == Transition(to)
    then Some(os[id := os[id].(state := to, rover := if rover.Some? then rover.value else os[id].rover)])
    else None
  }

  // dbS3RemoveOnState on an object record.
  function RemoveObject(os: Objects, id: ObjId, state: State): Option<Objects> {
    if id in os && os[id].state == state then Some(os - {id}) else None
  }

  // dbS3SetState on a bucket record; deletion also asks for cnt-objects = 0.
  function SetBucket(bs: Buckets, id: BucketId, to: State): Option<Buckets> {
    if id in bs && bs[id].state == Transition(to) && (to == Inactive ==> bs[id].cntObjects == 0)
    then Some(bs[id := bs[id].(state := to)])
    else None
  }

  // RemoveFromDB
  function RemoveBucket(bs: Buckets, id: BucketId): Option<Buckets> {
    if id in bs && bs[id].state == Inactive && bs[id].cntObjects == 0 then Some(bs - {id}) else None
  }

  // The unique index on bcookie.
  predicate CookieFree(bs: Buckets, bcookie: string) {
    forall b :: b in bs ==> bs[b].bcookie != bcookie
  }

  // rsLimited; a limit of zero (or none) does not limit.
  predicate Limited(lim: map<NsId, nat>, n: NsId, bytes: int) {
    n in lim && lim[n] != 0 && bytes > lim[n]
  }

  predicate IsVersion(os: Objects, c: OCookie, x: ObjId) {
    x in os && os[x].state == Active && os[x].ocookie == c
  }

  // x is a version FindCurObject may return for this cookie.
  ghost predicate IsCurrent(os: Objects, c: OCookie, x: ObjId) {
    IsVersion(os, c, x) && forall y :: IsVersion(os, c, y) ==> os[y].rover <= os[x].rover
  }

  ghost predicate NoCurrent(os: Objects, c: OCookie) {
    forall y :: !IsVersion(os, c, y)
  }

  // The records gcOldVersions asks for.
  predicate Outdated(os: Objects, b: BucketId, key: string, below: int, x: ObjId) {
    x in os && os[x].state == Active && os[x].bucket == b && os[x].ocookie.key == key && os[x].rover < below
  }

  ghost predicate GcList(os: Objects, b: BucketId, key: string, below: int, todo: seq<ObjId>) {
    && (forall i, j :: 0 <= i < j < |todo| ==> todo[i] != todo[j])
    && (forall i, j :: 0 <= i < j < |todo| && todo[i] in os && todo[j] in os ==> os[todo[i]].rover >= os[todo[j]].rover)
    && (forall x :: x in todo <==> Outdated(os, b, key, below, x))
  }

  // A bucket's own Active versions have rovers up to its current one, and they are just the
  // Active versions of its name (S3Theorems.EveryBucketTidy).
  ghost predicate Tidy(os: Objects, bs: Buckets, h: Handle) {
    && h.id in bs
    && forall x :: x in os && os[x].state == Active ==>
         && (os[x].bucket == h.id ==> os[x].rover <= bs[h.id].rover)
         && (os[x].ocookie.bcookie == h.bcookie <==> os[x].bucket == h.id)
  }
}
