// The code of multipart uploads, one call at a time: an upload record, its parts, and the
// object made of them.
module UploadOps {
  import opened Common
  import opened S3Db
  import opened Upload
  import opened UploadSafety
  import opened UploadTheorems

  class Multipart {
    var up: Option<Record>
    var parts: Parts
    var obj: Option<Final>

    // s3UploadInit
    constructor ()
      ensures Open() && parts == map[] && obj.None?
    {
      up, parts, obj := Some(Record(Active, 0, 0)), map[], None;
    }

    // An upload that nobody works on.
    ghost predicate Open()
      reads this
    {
      up == Some(Record(Active, 0, 0))
    }

    method DbRefInc() returns (ok: bool)
      modifies this`up
      ensures ok <==> old(up).Some? && old(up).value.state == Active && old(up).value.lock == 0
      ensures up == if ok then Some(old(up).value.(ref := old(up).value.ref + 1)) else old(up)
    {
      ok := up.Some? && up.value.state == Active && up.value.lock == 0;
      if ok { up := Some(up.value.(ref := up.value.ref + 1)); }
    }

    method DbRefDec() returns (ok: bool)
      modifies this`up
      ensures ok <==> old(up).Some? && old(up).value.state == Active && old(up).value.lock == 0
      ensures up == if ok then Some(old(up).value.(ref := old(up).value.ref - 1)) else old(up)
    {
      ok := up.Some? && up.value.state == Active && up.value.lock == 0;
      if ok { up := Some(up.value.(ref := up.value.ref - 1)); }
    }

    method DbLock() returns (ok: bool)
      modifies this`up
      ensures ok <==> old(up) == Some(Record(Active, 0, 0))
      ensures up == if ok then Some(Record(Active, 1, 0)) else old(up)
    {
      ok := up.Some? && up.value.state == Active && up.value.lock == 0 && up.value.ref == 0;
      if ok { up := Some(up.value.(lock := up.value.lock + 1)); }
    }

    method DbUnlock() returns (ok: bool)
      modifies this`up
      ensures ok <==> old(up) == Some(Record(Active, 1, 0))
      ensures up == if ok then Some(Record(Active, 0, 0)) else old(up)
    {
      ok := up.Some? && up.value.state == Active && up.value.lock == 1 && up.value.ref == 0;
      if ok { up := Some(up.value.(lock := up.value.lock - 1)); }
    }

    // s3UploadPart: data is what AddPart keeps of the body, which may be less than the declared
    // size; dataOk is false when AddPart fails. With the lock free the part is added, or nothing
    // is; the reference is given back either way. With the lock held nothing happens.
    method UploadPart(id: PartId, num: nat, size: nat, data: seq<bv8>, dataOk: bool) returns (ok: bool)
      requires id !in parts && |data| <= size
      modifies this
      ensures up == old(up) && obj == old(obj)
      ensures ok <==> dataOk && old(up).Some? && old(up).value.state == Active && old(up).value.lock == 0
      ensures parts == if ok then old(parts)[id := Part(num, size, data, Active)] else old(parts)
    {
      var got := DbRefInc();
      if !got { return false; }
      parts := parts[id := Part(num, size, data, NoneState)];
      if dataOk {
        parts := parts[id := parts[id].(state := Active)];
      } else {
        parts := parts - {id};
        assert parts == old(parts);
      }
      var _ := DbRefDec();
      return dataOk;
    }

    // s3UploadRemoveLocked. The list is of all parts; it is walked only for an abort.
    method RemoveLocked(data: bool, list: seq<PartId>) returns (ok: bool)
      requires Enumerates(parts, list) && AllActive(parts) && up == Some(Record(Active, 1, 0))
      modifies this`up, this`parts
      ensures ok && up.None? && parts == if data then map[] else old(parts)
    {
      up := Some(up.value.(state := Inactive));
      if data {
        var i := 0;
        while i < |list|
          invariant i <= |list| && AllActive(parts) && up == Some(Record(Inactive, 1, 0))
          invariant forall x :: x in parts <==> x in list[i..]
          decreases |list| - i
        {
          var id := list[i];
          assert id in list[i..];
          parts := parts[id := parts[id].(state := Inactive)];
          parts := parts - {id};
          assert list[i..] == [id] + list[i + 1..];
          assert id !in list[i + 1..];
          i := i + 1;
        }
        assert parts == map[];
      }
      up := None;
      return true;
    }

    // s3UploadFini: it works exactly when nobody is at work, no part is empty and the object
    // is accepted; then the upload is gone and the object has the size of its parts. Else
    // everything is as before.
    method UploadFini(order: seq<PartId>, accepted: bool) returns (ok: bool)
      requires Listing(parts, order) && AllActive(parts) && obj.None?
      modifies this
      ensures ok <==> old(Open()) && NoneEmpty(parts) && accepted
      ensures parts == old(parts)
      ensures ok ==> up.None? && obj == Some(Final(Active, Total(parts, true)))
      ensures !ok ==> up == old(up) && obj.None?
    {
      ok := DbLock();
      if !ok { return; }
      var sum := ResumParts(parts, order);
      assert sum.Some? <==> NoneEmpty(parts);
      if sum.None? || !accepted {
        var _ := DbUnlock();
        return false;
      }
      BodyLength(parts, order);
      obj := Some(Final(NoneState, sum.value.0));
      obj := Some(obj.value.(state := Active));
      var _ := RemoveLocked(false, order);
    }

    // s3UploadAbort: nobody at work, nothing is left; else nothing happens.
    method UploadAbort(list: seq<PartId>) returns (ok: bool)
      requires Enumerates(parts, list) && AllActive(parts)
      modifies this`up, this`parts
      ensures ok <==> old(up).None? || old(Open())
      ensures old(Open()) ==> up.None? && parts == map[]
      ensures !old(Open()) ==> up == old(up) && parts == old(parts)
    {
      if up.None? { return true; }
      ok := DbLock();
      if ok { ok := RemoveLocked(true, list); }
    }
  }
}
