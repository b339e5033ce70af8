/** pkg/sxu/bridge/bridge.go: a bridge keeps one watchdog per source session. Its methods have
    value receivers, so of its fields only the shared map of entrances changes for good; the
    remembered track never does, and the check against it never fires. */
module Bridges {

  class Bridge {
    /** The watchdog of each source session; watchdogs are numbered as they are created. */
    var entrances: map<string, nat>
    /** The session each watchdog was created for. */
    var created: seq<string>
    /** The watchdogs told to leave, in order. */
    var left: seq<nat>
    var exitRemoved: bool

    /** Every watchdog ever created is in the map under its session, or was told to leave once. */
    ghost predicate Valid()
      reads this
    {
      && (forall sid | sid in entrances :: entrances[sid] < |created| && created[entrances[sid]] == sid)
      && (forall i | 0 <= i < |left| :: left[i] < |created|)
      && (forall i, j | 0 <= i < j < |left| :: left[i] != left[j])
      && (forall d | 0 <= d < |created| :: InUse(d) <==> d !in left)
    }

    ghost predicate InUse(d: nat)
      requires d < |created|
      reads this
    {
      created[d] in entrances && entrances[created[d]] == d
    }

    constructor ()
      ensures Valid() && entrances == map[] && created == [] && left == [] && !exitRemoved
    {
      entrances, created, left, exitRemoved := map[], [], [], false;
    }

    /** `procedureOk` is whether Processor.UpdateProcedure succeeds. */
    method Update(srcSessionIdList: seq<string>, procedureOk: bool) returns (ok: bool)
      requires Valid()
      modifies this
      ensures Valid() && exitRemoved == old(exitRemoved)
      ensures ok == procedureOk
      ensures !ok ==> entrances == old(entrances) && created == old(created) && left == old(left)
      ensures ok ==> entrances.Keys == set sid | sid in srcSessionIdList
      ensures forall sid | sid in entrances && sid in old(entrances) :: entrances[sid] == old(entrances)[sid]
      ensures old(created) <= created && old(left) <= left
      ensures forall i | |old(left)| <= i < |left| ::
        created[left[i]] in old(entrances) && created[left[i]] !in srcSessionIdList
    {
      if !procedureOk {
        return false;
      }
      CreateMissing(srcSessionIdList);
      var sidSet: set<string> := {};
      for i := 0 to |srcSessionIdList|
        invariant sidSet == set sid | sid in srcSessionIdList[..i]
      {
        assert srcSessionIdList[..i + 1] == srcSessionIdList[..i] + [srcSessionIdList[i]];
        sidSet := sidSet + {srcSessionIdList[i]};
      }
      assert srcSessionIdList[..|srcSessionIdList|] == srcSessionIdList;
      assert sidSet <= entrances.Keys && sidSet >= entrances.Keys - old(entrances.Keys);
      LeaveAllBut(sidSet);
      assert entrances.Keys == sidSet;
      return true;
    }

    /** Lines 86 to 93. */
    method CreateMissing(sids: seq<string>)
      requires Valid()
      modifies this`entrances, this`created
      ensures Valid() && old(created) <= created
      ensures entrances.Keys == old(entrances.Keys) + set sid | sid in sids
      ensures forall sid | sid in old(entrances) :: entrances[sid] == old(entrances)[sid]
    {
      for i := 0 to |sids|
        invariant Valid() && old(created) <= created
        invariant entrances.Keys == old(entrances.Keys) + set sid | sid in sids[..i]
        invariant forall sid | sid in old(entrances) :: entrances[sid] == old(entrances)[sid]
      {
        assert sids[..i + 1] == sids[..i] + [sids[i]];
        if sids[i] !in entrances {
          entrances := entrances[sids[i] := |created|];
          created := created + [sids[i]];
        }
      }
      assert sids[..|sids|] == sids;
    }

    /** The loop of lines 100 to 105, and with no session to keep that of lines 163 to 166. */
    method LeaveAllBut(keep: set<string>)
      requires Valid()
      modifies this`entrances, this`left
      ensures Valid() && old(left) <= left
      ensures entrances.Keys == old(entrances.Keys) * keep
      ensures forall sid | sid in entrances :: entrances[sid] == old(entrances)[sid]
      ensures forall i | |old(left)| <= i < |left| ::
        created[left[i]] in old(entrances) && created[left[i]] !in keep
    {
      var todo := entrances.Keys;
      while todo != {}
        invariant todo <= entrances.Keys
        invariant Valid() && old(left) <= left
        invariant entrances.Keys == todo + old(entrances.Keys) * keep
        invariant forall sid | sid in entrances :: entrances[sid] == old(entrances)[sid]
        invariant forall i | |old(left)| <= i < |left| ::
          created[left[i]] in old(entrances) && created[left[i]] !in keep
      {
        var sid :| sid in todo;
        todo := todo - {sid};
        if sid !in keep {
          var d := entrances[sid];
          assert InUse(d);
          ghost var was := left;
          entrances, left := entrances - {sid}, left + [d];
          assert forall e :: e in left <==> e in was || e == d;
        }
      }
    }

    /** Stops every entrance and the exit. */
    method Remove()
      requires Valid()
      modifies this
      ensures Valid() && entrances == map[] && exitRemoved
      ensures created == old(created) && old(left) <= left
      ensures forall d: nat | d < |created| :: d in left
    {
      LeaveAllBut({});
      exitRemoved := true;
    }
  }
}
