/** Publishing a directory by one no-replace rename, undone if anything after it fails. */
module Publish {
  import opened Common

  type Name = string
  type Identity = nat

  /** A Python `Exception`, or one that `except Exception` does not catch. */
  datatype Kind = Ordinary | Interrupt

  /** An exception group is ordinary only if all its members are. */
  function Together(a: Kind, b: Kind): Kind {
    if a == Interrupt then Interrupt else b
  }

  /** Which system calls fail, numbered in the order they are made. */
  type Faults = nat -> Option<Kind>

  /** How many of the `n` calls from `from` on succeed before the first that fails. */
  ghost function Succeeding(plan: Faults, from: nat, n: nat): nat
    decreases n, from
  {
    if n == 0 || plan(from).Some? then 0 else 1 + Succeeding(plan, from + 1, n - 1)
  }

  /** None of the `n` calls from `from` on fails. */
  ghost predicate NoFaults(plan: Faults, from: nat, n: nat) {
    Succeeding(plan, from, n) == n
  }

  lemma {:induction false} SucceedingPast(plan: Faults, from: nat, n: nat, j: nat)
    requires j <= n
    ensures Succeeding(plan, from, n) <= n
    ensures NoFaults(plan, from, j) <==> j <= Succeeding(plan, from, n)
    ensures NoFaults(plan, from, j) ==> Succeeding(plan, from, n) == j + Succeeding(plan, from + j, n - j)
    ensures NoFaults(plan, from, n) <==> NoFaults(plan, from, j) && NoFaults(plan, from + j, n - j)
    decreases n
  {
    if n > 0 && plan(from).None? {
      SucceedingPast(plan, from + 1, n - 1, if j == 0 then 0 else j - 1);
    }
  }

  /** What the count means: everything before it succeeds, and what follows, if it was counted, fails. */
  lemma {:induction false} SucceedingIsFirst(plan: Faults, from: nat, n: nat, k: nat)
    requires k <= n
    ensures Succeeding(plan, from, n) == k <==>
      (forall i :: from <= i < from + k ==> plan(i).None?) && (k < n ==> plan(from + k).Some?)
    decreases n
  {
    if n > 0 && plan(from).None? {
      if k == 0 {
        SucceedingPast(plan, from, n, 1);
      } else {
        SucceedingIsFirst(plan, from + 1, n - 1, k - 1);
      }
    }
  }

  // The calls of one publication: four before anything is moved, ten that move and verify with the
  // rename as their second, and the two closes of the `finally` clause.
  const OPENING := 4
  const MOVING := 10
  const VERIFIED := OPENING + MOVING
  const CLOSED := VERIFIED + 2

  /** A call after the rename fails, and so does the rename that should undo it. */
  ghost predicate MoveStays(plan: Faults, start: nat) {
    var k := Succeeding(plan, start, MOVING);
    1 < k < MOVING && plan(start + k + 1).Some?
  }

  /**
    * A raise will leave the directory under its final name: a call between the rename and the end of
    * the last verification fails together with the undoing rename, or nothing fails but a close.
    */
  ghost predicate Strands(plan: Faults, start: nat) {
    if NoFaults(plan, start, VERIFIED) then !NoFaults(plan, start + VERIFIED, 2)
    else NoFaults(plan, start, OPENING) && MoveStays(plan, start + OPENING)
  }

  lemma SucceedingSplits(plan: Faults, from: nat, j: nat, n: nat)
    ensures Succeeding(plan, from, j) <= j && Succeeding(plan, from + j, n) <= n
    ensures Succeeding(plan, from, j + n) ==
      if Succeeding(plan, from, j) < j then Succeeding(plan, from, j) else j + Succeeding(plan, from + j, n)
  {
    var k := Succeeding(plan, from, j);
    SucceedingPast(plan, from, j, j);
    SucceedingPast(plan, from + j, n, n);
    SucceedingPast(plan, from, j + n, j);
    SucceedingIsFirst(plan, from, j, k);
    if k < j {
      SucceedingIsFirst(plan, from, j + n, k);
    }
  }

  lemma CountOne(plan: Faults, n: nat)
    ensures Succeeding(plan, n, 1) == if plan(n).Some? then 0 else 1
  {
    assert Succeeding(plan, n + 1, 0) == 0;
  }

  lemma CountThree(plan: Faults, n: nat)
    ensures Succeeding(plan, n, 2) == if plan(n).Some? then 0 else if plan(n + 1).Some? then 1 else 2
    ensures Succeeding(plan, n, 3) ==
      if Succeeding(plan, n, 2) < 2 then Succeeding(plan, n, 2) else if plan(n + 2).Some? then 2 else 3
  {
    CountOne(plan, n);
    CountOne(plan, n + 1);
    CountOne(plan, n + 2);
    SucceedingSplits(plan, n, 1, 1);
    SucceedingSplits(plan, n, 2, 1);
  }

  lemma MoveStaysByParts(plan: Faults, n: nat)
    ensures Succeeding(plan, n, MOVING) == MOVING <==> Succeeding(plan, n, 3) == 3 && Succeeding(plan, n + 3, 7) == 7
    ensures Succeeding(plan, n, 3) == 3 && Succeeding(plan, n + 3, 7) < 7 ==>
      (MoveStays(plan, n) <==> plan(n + 3 + Succeeding(plan, n + 3, 7) + 1).Some?)
    ensures Succeeding(plan, n, 3) < 3 ==> (MoveStays(plan, n) <==> Succeeding(plan, n, 2) == 2 && plan(n + 3).Some?)
    ensures Succeeding(plan, n, 3) <= 3 && Succeeding(plan, n + 3, 7) <= 7
  {
    CountThree(plan, n);
    SucceedingSplits(plan, n, 3, 7);
  }

  lemma StrandsByParts(plan: Faults, start: nat)
    ensures NoFaults(plan, start, VERIFIED) <==>
      NoFaults(plan, start, OPENING) && NoFaults(plan, start + OPENING, MOVING)
    ensures NoFaults(plan, start, CLOSED) <==> NoFaults(plan, start, VERIFIED) && NoFaults(plan, start + VERIFIED, 2)
  {
    SucceedingPast(plan, start, VERIFIED, OPENING);
    SucceedingPast(plan, start, CLOSED, VERIFIED);
  }

  ghost predicate OnlyFault(plan: Faults, fault: nat) {
    forall i :: plan(i).Some? <==> i == fault
  }

  /** A single failing call strands the directory exactly if it is one of the closes. */
  lemma OneFaultStrands(plan: Faults, start: nat, fault: nat)
    requires OnlyFault(plan, fault)
    ensures Strands(plan, start) <==> start + VERIFIED <= fault < start + CLOSED
    ensures NoFaults(plan, start, CLOSED) <==> !(start <= fault < start + CLOSED)
  {
    StrandsByParts(plan, start);
    var k := if start <= fault < start + VERIFIED then fault - start else VERIFIED;
    SucceedingIsFirst(plan, start, VERIFIED, k);
    SucceedingIsFirst(plan, start + VERIFIED, 2,
                      if start + VERIFIED <= fault < start + CLOSED then fault - start - VERIFIED else 2);
    if OPENING <= k < VERIFIED {
      SucceedingIsFirst(plan, start + OPENING, MOVING, k - OPENING);
    }
  }

  /** The staging parent and the final parent; `next` numbers the call that comes next. */
  class Parents {
    const plan: Faults
    var staging: map<Name, Identity>
    var final_: map<Name, Identity>
    var next: nat

    /** Of what stood in `was` and `free`, only `s` may have moved to `d`, and has if `moved`. */
    ghost predicate At(was: map<Name, Identity>, free: map<Name, Identity>, s: Name, d: Name, moved: bool)
      requires s in was
      reads `staging, `final_
    {
      if moved then staging == was - {s} && final_ == free[d := was[s]]
      else staging == was && final_ == free
    }

    constructor (staging: map<Name, Identity>, final_: map<Name, Identity>, plan: Faults)
      ensures this.staging == staging && this.final_ == final_ && this.plan == plan && next == 0
    {
      this.staging, this.final_, this.plan, next := staging, final_, plan, 0;
    }

    /** A system call that has no effect here, and may fail. */
    method Call() returns (e: Option<Kind>)
      modifies this`next
      ensures e == plan(old(next)) && next == old(next) + 1
    {
      e := plan(next);
      next := next + 1;
    }

    /** `renameat2` with RENAME_NOREPLACE: refused if the destination exists, otherwise atomic. */
    method RenameToFinal(s: Name, d: Name) returns (e: Option<Kind>)
      requires s in staging
      modifies this
      ensures next == old(next) + 1
      ensures e.None? <==> plan(old(next)).None? && d !in old(final_)
      ensures At(old(staging), old(final_), s, d, e.None?)
    {
      e := Call();
      if e.None? && d in final_ {
        e := Some(Ordinary);
      }
      if e.None? {
        final_ := final_[d := staging[s]];
        staging := staging - {s};
      }
    }

    method RenameBack(s: Name, d: Name, ghost was: map<Name, Identity>, ghost free: map<Name, Identity>)
      returns (e: Option<Kind>)
      requires s in was && d !in free && At(was, free, s, d, true)
      modifies this
      ensures next == old(next) + 1 && e == plan(old(next))
      ensures At(was, free, s, d, e.Some?)
    {
      e := Call();
      if e.None? {
        staging := staging[s := final_[d]];
        final_ := final_ - {d};
        assert staging == was && final_ == free;
      }
    }

    /** Undo the rename and check that the directory is back; only the first of the two can leave it away. */
    method RollBack(s: Name, d: Name, ghost was: map<Name, Identity>, ghost free: map<Name, Identity>)
      returns (e: Option<Kind>)
      requires s in was && d !in free && At(was, free, s, d, true)
      modifies this
      ensures At(was, free, s, d, plan(old(next)).Some?)
    {
      e := RenameBack(s, d, was, free);
      if e.Some? {
        return e;
      }
      e := Call();
    }

    method VerifyMoved(d: Name, id: Identity) returns (e: Option<Kind>)
      requires d in final_ && final_[d] == id
      modifies this`next
      ensures e == plan(old(next)) && next == old(next) + 1
    {
      e := Call();
      if e.None? && final_[d] != id {
        e := Some(Ordinary);
      }
    }

    /** The rename with its identity checks; a failed check is undone at once. */
    method RenameChecked(s: Name, d: Name) returns (e: Option<Kind>)
      requires s in staging
      modifies this
      ensures e.None? <==> d !in old(final_) && Succeeding(plan, old(next), 3) == 3
      ensures e.None? ==> next == old(next) + 3
      ensures At(old(staging), old(final_), s, d,
        d !in old(final_) && Succeeding(plan, old(next), 2) == 2 && (e.None? || plan(old(next) + 3).Some?))
    {
      CountThree(plan, next);
      var id := staging[s];
      e := Call();
      if e.Some? {
        return e;
      }
      e := RenameToFinal(s, d);
      if e.Some? {
        return e;
      }
      e := VerifyMoved(d, id);
      if e.Some? {
        var rollback := RollBack(s, d, old(staging), old(final_));
        if rollback.Some? {
          return Some(Together(e.value, rollback.value));
        }
      }
    }

    /** Sync both parents, then sync each by its path and check both paths after it. */
    method SyncParents() returns (e: Option<Kind>)
      modifies this`next
      ensures e.None? <==> Succeeding(plan, old(next), 6) == 6
      ensures next == old(next) + Succeeding(plan, old(next), 6) + if e.None? then 0 else 1
    {
      CountThree(plan, next);
      CountThree(plan, next + 3);
      SucceedingPast(plan, next, 6, 3);
      e := Call();
      if e.Some? {
        return e;
      }
      e := Call();
      if e.Some? {
        return e;
      }
      e := Call();
      if e.Some? {
        return e;
      }
      e := Call();
      if e.Some? {
        return e;
      }
      e := Call();
      if e.Some? {
        return e;
      }
      e := Call();
    }

    /** The calls between the rename and the end, none of which moves anything. */
    method SyncAndVerify(d: Name, id: Identity) returns (e: Option<Kind>)
      requires d in final_ && final_[d] == id
      modifies this`next
      ensures e.None? <==> Succeeding(plan, old(next), 7) == 7
      ensures next == old(next) + Succeeding(plan, old(next), 7) + if e.None? then 0 else 1
    {
      ghost var n := next;
      SucceedingSplits(plan, n, 6, 1);
      CountOne(plan, n + 6);
      e := SyncParents();
      if e.Some? {
        return e;
      }
      e := VerifyMoved(d, id);
    }

    method RollBackAndSync(s: Name, d: Name, ghost was: map<Name, Identity>, ghost free: map<Name, Identity>)
      returns (e: Option<Kind>)
      requires s in was && d !in free && At(was, free, s, d, true)
      modifies this
      ensures At(was, free, s, d, plan(old(next)).Some?)
    {
      e := RollBack(s, d, was, free);
      if e.Some? {
        return e;
      }
      e := Call();
      if e.Some? {
        return e;
      }
      e := Call();
    }

    /** The `finally` clause: a failed close replaces what was raised, and nothing follows it. */
    method CloseParents(raised: Option<Kind>) returns (e: Option<Kind>)
      modifies this`next
      ensures e.None? <==> raised.None? && NoFaults(plan, old(next), 2)
    {
      CountThree(plan, next);
      e := Call();
      if e.Some? {
        return e;
      }
      e := Call();
      if e.None? {
        e := raised;
      }
    }

    /** Examine the paths, open both parents and look up `renameat2`, before anything is moved. */
    method OpenParents() returns (e: Option<Kind>)
      modifies this`next
      ensures e.None? <==> NoFaults(plan, old(next), OPENING)
      ensures e.None? ==> next == old(next) + OPENING
    {
      CountThree(plan, next);
      SucceedingPast(plan, next, OPENING, 3);
      assert Succeeding(plan, next + 3, 1) == if plan(next + 3).Some? then 0 else 1;
      e := Call();
      if e.Some? {
        return e;
      }
      e := Call();
      if e.Some? {
        return e;
      }
      e := Call();
      if e.Some? {
        var close := Call();
        return if close.Some? then close else e;
      }
      e := Call();
      if e.Some? {
        e := CloseParents(e);
      }
    }

    /** Everything after the checked rename, undone if any of it fails. */
    method SettleMove(s: Name, d: Name, ghost was: map<Name, Identity>, ghost free: map<Name, Identity>)
      returns (e: Option<Kind>)
      requires s in was && d !in free && At(was, free, s, d, true)
      modifies this
      ensures e.None? <==> Succeeding(plan, old(next), 7) == 7
      ensures e.None? ==> next == old(next) + 7
      ensures At(was, free, s, d, e.None? || plan(old(next) + Succeeding(plan, old(next), 7) + 1).Some?)
    {
      e := SyncAndVerify(d, final_[d]);
      if e.Some? {
        var rollback := RollBackAndSync(s, d, was, free);
        if rollback.Some? {
          return Some(Together(e.value, rollback.value));
        }
      }
    }

    /** The rename, the calls after it, and their undoing if one fails. */
    method MoveAndVerify(s: Name, d: Name) returns (e: Option<Kind>)
      requires s in staging
      modifies this
      ensures e.None? <==> d !in old(final_) && Succeeding(plan, old(next), MOVING) == MOVING
      ensures e.None? ==> next == old(next) + MOVING
      ensures At(old(staging), old(final_), s, d, d !in old(final_) && (e.None? || MoveStays(plan, old(next))))
    {
      MoveStaysByParts(plan, next);
      CountThree(plan, next);
      e := RenameChecked(s, d);
      if e.None? {
        e := SettleMove(s, d, old(staging), old(final_));
      }
    }

    /**
      * Over a free destination the directory ends under its final name exactly when this returns or
      * the faults strand it, and stays in staging otherwise. An existing destination is never replaced.
      */
    method PublishDirectory(s: Name, d: Name) returns (e: Option<Kind>)
      requires s in staging
      modifies this
      ensures e.None? <==> d !in old(final_) && NoFaults(plan, old(next), CLOSED)
      ensures At(old(staging), old(final_), s, d, d !in old(final_) && (e.None? || Strands(plan, old(next))))
    {
      StrandsByParts(plan, next);
      e := OpenParents();
      if e.Some? {
        return e;
      }
      e := MoveAndVerify(s, d);
      e := CloseParents(e);
    }
  }

  /** One fault, at the last close: the call raises, and the directory is published. */
  method OneFailedCloseStrands() returns (dirs: Parents, e: Option<Kind>)
    ensures OnlyFault(dirs.plan, CLOSED - 1)
    ensures e.Some? && dirs.staging == map[] && dirs.final_ == map["run" := 7]
  {
    dirs := new Parents(map["run" := 7], map[], i => if i == CLOSED - 1 then Some(Ordinary) else None);
    OneFaultStrands(dirs.plan, 0, CLOSED - 1);
    e := dirs.PublishDirectory("run", "run");
  }
}
