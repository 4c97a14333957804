/** Mounting and unmounting of tapes by concurrent operations: the drive lock, the
    robot, the recorded drive of a medium and the mount counters. */
module Tapes {
  import opened Rows

  type DriveId = nat
  type MediumId = nat

  datatype Drive = Drive(locked: bool, mounts: nat)

  /** Where a medium is: in the slot of some medium, or in a drive. */
  datatype Place = Slot(home: MediumId) | In(drive: DriveId)

  datatype Medium = Medium(recorded: Option<DriveId>, mounts: nat, at: Place)

  /** How far an operation is. `Held` has the lock and is about to call the robot;
      `Moved` has moved the tape; `Counted` has counted the mount on the drive;
      `Recorded` has stored what it did on the medium; `Failing` has released the
      lock of a mount whose label failed and has its last unlock still to come. */
  datatype Phase = Waiting | Held | Moved | Counted | Recorded | Failing | Done

  datatype Op = Op(mount: bool, drive: DriveId, medium: MediumId, phase: Phase)

  datatype Sys = Sys(drives: seq<Drive>, media: seq<Medium>, ops: seq<Op>)

  /******* Steps *******/

  function Lock(s: Sys, d: DriveId, on: bool): Sys
    requires d < |s.drives|
  {
    s.(drives := s.drives[d := s.drives[d].(locked := on)])
  }

  function To(s: Sys, i: nat, p: Phase): Sys
    requires i < |s.ops|
  {
    s.(ops := s.ops[i := s.ops[i].(phase := p)])
  }

  function Put(s: Sys, m: MediumId, row: Medium): Sys
    requires m < |s.media|
  {
    s.(media := s.media[m := row])
  }

  predicate Full(s: Sys, d: DriveId) {
    exists m :: 0 <= m < |s.media| && s.media[m].at == In(d)
  }

  predicate SlotUsed(s: Sys, h: MediumId) {
    exists m :: 0 <= m < |s.media| && s.media[m].at == Slot(h)
  }

  /** The rows that an operation names exist. */
  predicate Known(s: Sys) {
    forall i :: 0 <= i < |s.ops| ==> s.ops[i].drive < |s.drives| && s.ops[i].medium < |s.media|
  }

  /** A mount takes a free lock; an unmount also reads which medium is recorded. */
  ghost predicate Begin(s: Sys, i: nat, s': Sys)
    requires Known(s) && i < |s.ops|
  {
    var op := s.ops[i];
    && op.phase == Waiting && !s.drives[op.drive].locked
    && if op.mount then s' == To(Lock(s, op.drive, true), i, Held)
       else exists m :: 0 <= m < |s.media| && s.media[m].recorded == Some(op.drive)
                        && s' == Lock(s, op.drive, true).(ops := s.ops[i := op.(medium := m, phase := Held)])
  }

  /** The lock is taken, or an unmount finds no medium recorded: nothing changes. */
  ghost predicate Refuse(s: Sys, i: nat, s': Sys)
    requires Known(s) && i < |s.ops|
  {
    var op := s.ops[i];
    && op.phase == Waiting && s' == To(s, i, Done)
    && (s.drives[op.drive].locked
        || (!op.mount && forall m :: 0 <= m < |s.media| ==> s.media[m].recorded != Some(op.drive)))
  }

  /** The robot moves what is in the slot of the medium into the empty drive. */
  ghost predicate Load(s: Sys, i: nat, s': Sys)
    requires Known(s) && i < |s.ops|
  {
    var op := s.ops[i];
    && op.mount && op.phase == Held && !Full(s, op.drive)
    && exists x :: 0 <= x < |s.media| && s.media[x].at == Slot(op.medium)
                   && s' == To(Put(s, x, s.media[x].(at := In(op.drive))), i, Moved)
  }

  /** The robot moves what is in the drive into the empty slot of the medium. */
  ghost predicate Unload(s: Sys, i: nat, s': Sys)
    requires Known(s) && i < |s.ops|
  {
    var op := s.ops[i];
    && !op.mount && op.phase == Held && !SlotUsed(s, op.medium)
    && exists x :: 0 <= x < |s.media| && s.media[x].at == In(op.drive)
                   && s' == To(Put(s, x, s.media[x].(at := Slot(op.medium))), i, Moved)
  }

  /** The robot fails, or the drive of a mount does not come online: unlock. */
  ghost predicate GiveUp(s: Sys, i: nat, s': Sys)
    requires Known(s) && i < |s.ops|
  {
    var op := s.ops[i];
    (op.phase == Held || (op.mount && op.phase == Moved)) && s' == To(Lock(s, op.drive, false), i, Done)
  }

  ghost predicate CountDrive(s: Sys, i: nat, s': Sys)
    requires Known(s) && i < |s.ops|
  {
    var op := s.ops[i];
    var d := s.drives[op.drive];
    op.mount && op.phase == Moved
    && s' == To(s.(drives := s.drives[op.drive := d.(mounts := d.mounts + 1)]), i, Counted)
  }

  /** No other medium is recorded in the drive. */
  predicate Unrecorded(s: Sys, d: DriveId, m: MediumId) {
    forall x :: 0 <= x < |s.media| && x != m ==> s.media[x].recorded != Some(d)
  }

  /** A mount counts on the medium and records the drive; an unmount clears it. */
  ghost predicate Record(s: Sys, i: nat, s': Sys)
    requires Known(s) && i < |s.ops|
  {
    var op := s.ops[i];
    var m := s.media[op.medium];
    if op.mount then
      && op.phase == Counted && Unrecorded(s, op.drive, op.medium)
      && s' == To(Put(s, op.medium, m.(recorded := Some(op.drive), mounts := m.mounts + 1)), i, Recorded)
    else
      op.phase == Moved && s' == To(Put(s, op.medium, m.(recorded := None)), i, Recorded)
  }

  /** Another medium is recorded in the drive: the unique column refuses, and the
      mount ends there. */
  ghost predicate Clash(s: Sys, i: nat, s': Sys)
    requires Known(s) && i < |s.ops|
  {
    var op := s.ops[i];
    op.mount && op.phase == Counted && !Unrecorded(s, op.drive, op.medium) && s' == To(s, i, Done)
  }

  /** The label of a mounted tape fails: the handler unlocks. */
  ghost predicate LabelFails(s: Sys, i: nat, s': Sys)
    requires Known(s) && i < |s.ops|
  {
    var op := s.ops[i];
    op.mount && op.phase == Recorded && s' == To(Lock(s, op.drive, false), i, Failing)
  }

  /** The last unlock, after success and after a failed label alike. */
  ghost predicate Finish(s: Sys, i: nat, s': Sys)
    requires Known(s) && i < |s.ops|
  {
    var op := s.ops[i];
    (op.phase == Recorded || op.phase == Failing) && s' == To(Lock(s, op.drive, false), i, Done)
  }

  ghost predicate Next(s: Sys, i: nat, s': Sys) {
    Known(s) && i < |s.ops|
    && (Begin(s, i, s') || Refuse(s, i, s') || Load(s, i, s') || Unload(s, i, s') || GiveUp(s, i, s')
        || CountDrive(s, i, s') || Record(s, i, s') || Clash(s, i, s') || LabelFails(s, i, s') || Finish(s, i, s'))
  }

  /******* Invariant *******/

  /** The operation is inside the section that the lock of its drive guards. */
  predicate Critical(op: Op) {
    op.phase == Held || op.phase == Moved || op.phase == Counted || op.phase == Recorded
  }

  predicate Inside(s: Sys, i: nat, d: DriveId) {
    i < |s.ops| && Critical(s.ops[i]) && s.ops[i].drive == d
  }

  /** A drive is locked exactly when one operation, and only one, is inside. */
  ghost predicate Exclusive(s: Sys) {
    && (forall d, i, j :: Inside(s, i, d) && Inside(s, j, d) ==> i == j)
    && (forall d :: 0 <= d < |s.drives| ==>
          (s.drives[d].locked <==> exists i :: Inside(s, i, d)))
  }

  /** One medium in a place, and a medium in a slot is in its own. */
  ghost predicate Physical(s: Sys) {
    && (forall m, n :: 0 <= m < |s.media| && 0 <= n < |s.media| && s.media[m].at == s.media[n].at ==> m == n)
    && (forall m :: 0 <= m < |s.media| && s.media[m].at.Slot? ==> s.media[m].at.home == m)
  }

  /** Operation `i` has emptied drive `d` of medium `m` and has yet to clear its record. */
  predicate Emptied(s: Sys, i: nat, d: DriveId, m: MediumId) {
    i < |s.ops| && !s.ops[i].mount && s.ops[i].phase == Moved && s.ops[i].drive == d && s.ops[i].medium == m
  }

  /** A recorded medium is in its drive, but for an unmount about to clear the record. */
  ghost predicate Truthful(s: Sys) {
    forall m, d :: 0 <= m < |s.media| && s.media[m].recorded == Some(d) ==>
      s.media[m].at == In(d) || exists i :: Emptied(s, i, d, m)
  }

  /** What an operation inside its section relies on. */
  ghost predicate Relies(s: Sys, op: Op) {
    op.medium < |s.media| &&
    if op.mount then
      op.phase == Moved || op.phase == Counted ==>
        && s.media[op.medium].at == In(op.drive)
        && forall x :: 0 <= x < |s.media| ==> s.media[x].recorded != Some(op.drive)
    else op.phase == Held ==> s.media[op.medium].at == In(op.drive)
  }

  ghost predicate Inv(s: Sys) {
    Known(s) && Exclusive(s) && Physical(s) && Truthful(s) && forall i :: 0 <= i < |s.ops| ==> Relies(s, s.ops[i])
  }

  /** Operation `i` is about to unlock, for the second time, a drive that another
      operation has locked since the first. */
  predicate Late(s: Sys, i: nat) {
    i < |s.ops| && s.ops[i].phase == Failing && s.ops[i].drive < |s.drives| && s.drives[s.ops[i].drive].locked
  }

  /** A step of operation `i` changes no other operation, and not its drive. */
  lemma {:induction false} StepFrame(s: Sys, i: nat, s': Sys)
    requires Next(s, i, s')
    ensures |s'.ops| == |s.ops| && |s'.drives| == |s.drives| && |s'.media| == |s.media|
    ensures s'.ops[i].drive == s.ops[i].drive && s'.ops[i].mount == s.ops[i].mount
    ensures forall k :: 0 <= k < |s.ops| && k != i ==> s'.ops[k] == s.ops[k]
    ensures forall d :: 0 <= d < |s.drives| && d != s.ops[i].drive ==> s'.drives[d] == s.drives[d]
    ensures Known(s')
  {
  }

  lemma {:induction false} NoClash(s: Sys, i: nat, s': Sys)
    requires Inv(s) && Known(s) && i < |s.ops|
    ensures !Clash(s, i, s')
  {
    assert Relies(s, s.ops[i]);
  }

  /** The lock of the drive of operation `i` after its step. */
  lemma {:induction false} OwnLock(s: Sys, i: nat, s': Sys)
    requires Inv(s) && Next(s, i, s') && !Late(s, i)
    ensures s'.drives[s.ops[i].drive].locked
            <==> Inside(s', i, s.ops[i].drive)
                 || (!Inside(s, i, s.ops[i].drive) && s.drives[s.ops[i].drive].locked)
  {
    StepFrame(s, i, s');
    NoClash(s, i, s');
    var e := s.ops[i].drive;
    if Inside(s', i, e) {
      assert Inside(s, i, e) || Begin(s, i, s');
    } else if Inside(s, i, e) {
      assert !s'.drives[e].locked;
    } else {
      assert s'.drives[e].locked == s.drives[e].locked;
    }
  }

  lemma {:induction false} KeepsExclusive(s: Sys, i: nat, s': Sys)
    requires Inv(s) && Next(s, i, s') && !Late(s, i)
    ensures Exclusive(s')
  {
    StepFrame(s, i, s');
    OwnLock(s, i, s');
    var e := s.ops[i].drive;
    assert forall k: nat, d :: k != i ==> (Inside(s', k, d) <==> Inside(s, k, d));
    forall d | 0 <= d < |s'.drives| ensures s'.drives[d].locked <==> exists k :: Inside(s', k, d) {
      if s'.drives[d].locked && !(d == e && Inside(s', i, e)) {
        var k :| Inside(s, k, d);
        assert Inside(s', k, d);
      }
      if k :| Inside(s', k, d) {
        assert (d == e && k == i) || Inside(s, k, d);
      }
    }
    assert Inside(s', i, e) ==> Inside(s, i, e) || !s.drives[e].locked;
    assert Inside(s', i, e) ==> forall k: nat :: k != i ==> !Inside(s, k, e);
    assert forall d: nat, a: nat, b: nat :: a != i && b != i && Inside(s', a, d) && Inside(s', b, d) ==> a == b;
  }

  lemma {:induction false} KeepsPhysical(s: Sys, i: nat, s': Sys)
    requires Inv(s) && Next(s, i, s')
    ensures Physical(s')
  {
    assert Relies(s, s.ops[i]);
    if Load(s, i, s') {
      var x :| 0 <= x < |s.media| && s.media[x].at == Slot(s.ops[i].medium)
               && s' == To(Put(s, x, s.media[x].(at := In(s.ops[i].drive))), i, Moved);
    } else if Unload(s, i, s') {
      var x :| 0 <= x < |s.media| && s.media[x].at == In(s.ops[i].drive)
               && s' == To(Put(s, x, s.media[x].(at := Slot(s.ops[i].medium))), i, Moved);
      assert x == s.ops[i].medium;
    } else {
      assert forall m :: 0 <= m < |s.media| ==> s'.media[m].at == s.media[m].at;
    }
  }

  lemma {:induction false} KeepsTruthful(s: Sys, i: nat, s': Sys)
    requires Inv(s) && Next(s, i, s')
    ensures Truthful(s')
  {
    StepFrame(s, i, s');
    NoClash(s, i, s');
    var op := s.ops[i];
    assert Relies(s, op);
    forall m, d | 0 <= m < |s'.media| && s'.media[m].recorded == Some(d)
      ensures s'.media[m].at == In(d) || exists k :: Emptied(s', k, d, m)
    {
      if s.media[m].recorded == Some(d) {
        if k :| Emptied(s, k, d, m) && k != i {
          assert Emptied(s', k, d, m);
        } else if Emptied(s, i, d, m) {
        } else {
          assert s.media[m].at == In(d);
          if Unload(s, i, s') && d == op.drive { assert Emptied(s', i, d, m); }
        }
      }
    }
  }

  lemma {:induction false} KeepsRelies(s: Sys, i: nat, s': Sys, k: nat)
    requires Inv(s) && Next(s, i, s') && k < |s.ops|
    ensures k < |s'.ops| && Relies(s', s'.ops[k])
  {
    StepFrame(s, i, s');
    NoClash(s, i, s');
    assert Relies(s, s.ops[i]) && Relies(s, s.ops[k]);
    if Begin(s, i, s') {
      assert s'.media == s.media;
      if k == i && !s.ops[i].mount {
        var m := s'.ops[i].medium;
        assert s.media[m].recorded == Some(s.ops[i].drive);
        if j :| Emptied(s, j, s.ops[i].drive, m) { assert Inside(s, j, s.ops[i].drive); }
      }
    } else if Load(s, i, s') {
      if k == i { LoadRelies(s, i, s'); } else { assert Inside(s, i, s.ops[i].drive); }
    } else if k != i {
      assert Inside(s, i, s.ops[i].drive) || s'.media == s.media;
      assert Inside(s, k, s.ops[k].drive) || !Critical(s.ops[k]);
    }
  }

  lemma {:induction false} LoadRelies(s: Sys, i: nat, s': Sys)
    requires Inv(s) && Known(s) && i < |s.ops| && Load(s, i, s')
    ensures i < |s'.ops| && Relies(s', s'.ops[i])
  {
    var op := s.ops[i];
    var x :| 0 <= x < |s.media| && s.media[x].at == Slot(op.medium)
             && s' == To(Put(s, x, s.media[x].(at := In(op.drive))), i, Moved);
    assert x == op.medium;
    forall y | 0 <= y < |s.media| ensures s'.media[y].recorded != Some(op.drive) {
      if s.media[y].recorded == Some(op.drive) {
        assert !Full(s, op.drive) ==> s.media[y].at != In(op.drive);
        var k :| Emptied(s, k, op.drive, y);
        assert Inside(s, k, op.drive) && Inside(s, i, op.drive);
      }
    }
  }

  /** Every step keeps the invariant but a late unlock, which always breaks it. */
  lemma {:induction false} StepKeeps(s: Sys, i: nat, s': Sys)
    requires Inv(s) && Next(s, i, s')
    ensures if Late(s, i) then !Exclusive(s') else Inv(s')
  {
    StepFrame(s, i, s');
    if Late(s, i) {
      var d := s.ops[i].drive;
      var j :| Inside(s, j, d);
      assert Inside(s', j, d) && !s'.drives[d].locked;
    } else {
      KeepsExclusive(s, i, s');
      KeepsPhysical(s, i, s');
      KeepsTruthful(s, i, s');
      forall k | 0 <= k < |s'.ops| ensures Relies(s', s'.ops[k]) { KeepsRelies(s, i, s', k); }
    }
  }

  /******* Whole runs *******/

  /** Nothing has begun, no drive is locked, and every record is true. */
  ghost predicate Start(s: Sys) {
    && Known(s) && Physical(s)
    && (forall i :: 0 <= i < |s.ops| ==> s.ops[i].phase == Waiting)
    && (forall d :: 0 <= d < |s.drives| ==> !s.drives[d].locked)
    && (forall m, d :: 0 <= m < |s.media| && s.media[m].recorded == Some(d) ==> s.media[m].at == In(d))
  }

  /** A run of any interleaving: operation `who[k]` makes step `k`. */
  ghost predicate Run(h: seq<Sys>, who: seq<nat>) {
    |h| == |who| + 1 && Start(h[0]) && forall k :: 0 <= k < |who| ==> Next(h[k], who[k], h[k + 1])
  }

  /** No step up to state `n` is a late unlock. */
  ghost predicate OnTime(h: seq<Sys>, who: seq<nat>, n: nat)
    requires n <= |who| < |h|
  {
    forall k :: 0 <= k < n ==> !Late(h[k], who[k])
  }

  lemma {:induction false} StartInv(s: Sys)
    requires Start(s)
    ensures Inv(s)
  {
  }

  lemma {:induction false} OnTimeInv(h: seq<Sys>, who: seq<nat>, n: nat)
    requires Run(h, who) && n <= |who| && OnTime(h, who, n)
    ensures Inv(h[n])
  {
    if n == 0 {
      StartInv(h[0]);
    } else {
      OnTimeInv(h, who, n - 1);
      StepKeeps(h[n - 1], who[n - 1], h[n - 1 + 1]);
    }
  }

  /** A run keeps the locks exclusive throughout exactly when no operation unlocks, for
      the second time after a failed label, a drive that is locked again. */
  lemma {:induction false} ExclusiveIff(h: seq<Sys>, who: seq<nat>)
    requires Run(h, who)
    ensures (forall n :: 0 <= n < |h| ==> Exclusive(h[n])) <==> OnTime(h, who, |who|)
  {
    if OnTime(h, who, |who|) {
      forall n | 0 <= n < |h| ensures Exclusive(h[n]) { OnTimeInv(h, who, n); }
    } else {
      var k := FirstLate(h, who, |who|);
      OnTimeInv(h, who, k);
      StepKeeps(h[k], who[k], h[k + 1]);
    }
  }

  lemma {:induction false} FirstLate(h: seq<Sys>, who: seq<nat>, n: nat) returns (k: nat)
    requires Run(h, who) && n <= |who| && !OnTime(h, who, n)
    ensures k < n && OnTime(h, who, k) && Late(h[k], who[k])
  {
    if OnTime(h, who, n - 1) { k := n - 1; } else { k := FirstLate(h, who, n - 1); }
  }

  /******* Records *******/

  /** In every run, late unlocks or not: one medium in a place, and one recorded in a drive. */
  ghost predicate Unique(s: Sys) {
    && (forall m, n :: 0 <= m < |s.media| && 0 <= n < |s.media| && s.media[m].at == s.media[n].at ==> m == n)
    && (forall m, n | 0 <= m < |s.media| && 0 <= n < |s.media| && s.media[m].recorded == s.media[n].recorded
          && s.media[m].recorded.Some? :: m == n)
  }

  /** The step leaves the media where they are, and the records alone. */
  predicate MediaStay(s: Sys, s': Sys) {
    |s'.media| == |s.media| && forall m :: 0 <= m < |s.media| ==>
      s'.media[m].at == s.media[m].at && s'.media[m].recorded == s.media[m].recorded
  }

  lemma {:induction false} MoveUnique(s: Sys, i: nat, s': Sys)
    requires Unique(s) && Known(s) && i < |s.ops| && (Load(s, i, s') || Unload(s, i, s'))
    ensures Unique(s')
  {
    var op := s.ops[i];
    if op.mount {
      var x :| 0 <= x < |s.media| && s.media[x].at == Slot(op.medium)
               && s' == To(Put(s, x, s.media[x].(at := In(op.drive))), i, Moved);
    } else {
      var x :| 0 <= x < |s.media| && s.media[x].at == In(op.drive)
               && s' == To(Put(s, x, s.media[x].(at := Slot(op.medium))), i, Moved);
    }
  }

  lemma {:induction false} RecordUnique(s: Sys, i: nat, s': Sys)
    requires Unique(s) && Known(s) && i < |s.ops| && Record(s, i, s')
    ensures Unique(s')
  {
    var m := s.ops[i].medium;
    assert forall x :: 0 <= x < |s.media| && x != m ==> s'.media[x] == s.media[x];
  }

  lemma {:induction false} OthersStay(s: Sys, i: nat, s': Sys)
    requires Next(s, i, s') && !Load(s, i, s') && !Unload(s, i, s') && !Record(s, i, s')
    ensures MediaStay(s, s')
  {
  }

  lemma {:induction false} StepUnique(s: Sys, i: nat, s': Sys)
    requires Unique(s) && Next(s, i, s')
    ensures Unique(s')
  {
    if Load(s, i, s') || Unload(s, i, s') {
      MoveUnique(s, i, s');
    } else if Record(s, i, s') {
      RecordUnique(s, i, s');
    } else {
      OthersStay(s, i, s');
    }
  }

  /** The tape in the drive of an unmount is recorded there but is not the one it was to take. */
  predicate Foreign(s: Sys, op: Op, x: MediumId) {
    && x < |s.media| && s.media[x].at == In(op.drive) && s.media[x].recorded == Some(op.drive) && x != op.medium
    && forall k :: 0 <= k < |s.ops| ==> !Emptied(s, k, op.drive, x)
  }

  /** The step makes a record false: an unmount moves out another tape than its own, or a
      mount records a tape that was moved out since. */
  ghost predicate Strays(s: Sys, i: nat, s': Sys) {
    && Known(s) && i < |s.ops|
    && var op := s.ops[i];
       || (Unload(s, i, s') && exists x: nat :: Foreign(s, op, x))
       || (op.mount && Record(s, i, s') && s.media[op.medium].at != In(op.drive)
           && forall k :: 0 <= k < |s.ops| ==> !Emptied(s, k, op.drive, op.medium))
  }

  lemma {:induction false} StrayRecord(s: Sys, i: nat, s': Sys, m: MediumId, d: DriveId)
    requires Unique(s) && Truthful(s) && Next(s, i, s') && !Strays(s, i, s')
    requires m < |s'.media| && s'.media[m].recorded == Some(d)
    ensures s'.media[m].at == In(d) || exists k :: Emptied(s', k, d, m)
  {
    StepFrame(s, i, s');
    var op := s.ops[i];
    if Record(s, i, s') && op.mount && m == op.medium {
      if k :| 0 <= k < |s.ops| && Emptied(s, k, d, m) { assert Emptied(s', k, d, m); }
    } else {
      assert s.media[m].recorded == Some(d);
      if k :| Emptied(s, k, d, m) && k != i {
        assert Emptied(s', k, d, m);
      } else if Unload(s, i, s') && d == op.drive {
        assert m == op.medium ==> Emptied(s', i, d, m);
        assert m != op.medium ==> !Foreign(s, op, m);
      }
    }
  }

  /** With unique places, records stay true, or about to be cleared, exactly when no step strays. */
  lemma {:induction false} StrayBreaks(s: Sys, i: nat, s': Sys)
    requires Unique(s) && Truthful(s) && Next(s, i, s')
    ensures Truthful(s') <==> !Strays(s, i, s')
  {
    StepFrame(s, i, s');
    if Strays(s, i, s') {
      var op := s.ops[i];
      if Unload(s, i, s') {
        var x: nat :| Foreign(s, op, x);
        var y :| 0 <= y < |s.media| && s.media[y].at == In(op.drive)
                 && s' == To(Put(s, y, s.media[y].(at := Slot(op.medium))), i, Moved);
        assert y == x && s'.media[x].recorded == Some(op.drive);
        assert forall k: nat :: Emptied(s', k, op.drive, x) ==> Emptied(s, k, op.drive, x);
      } else {
        assert s'.media[op.medium].recorded == Some(op.drive);
        assert forall k: nat :: Emptied(s', k, op.drive, op.medium) ==> Emptied(s, k, op.drive, op.medium);
      }
    } else {
      forall m, d | 0 <= m < |s'.media| && s'.media[m].recorded == Some(d)
        ensures s'.media[m].at == In(d) || exists k :: Emptied(s', k, d, m)
      {
        StrayRecord(s, i, s', m, d);
      }
    }
  }

  ghost predicate NoStray(h: seq<Sys>, who: seq<nat>, n: nat)
    requires n <= |who| < |h|
  {
    forall k :: 0 <= k < n ==> !Strays(h[k], who[k], h[k + 1])
  }

  lemma {:induction false} AlwaysUnique(h: seq<Sys>, who: seq<nat>, n: nat)
    requires Run(h, who) && n <= |who|
    ensures Unique(h[n])
  {
    if n > 0 {
      AlwaysUnique(h, who, n - 1);
      assert Next(h[n - 1], who[n - 1], h[n - 1 + 1]);
      StepUnique(h[n - 1], who[n - 1], h[n]);
    }
  }

  lemma {:induction false} NoStrayTruthful(h: seq<Sys>, who: seq<nat>, n: nat)
    requires Run(h, who) && n <= |who| && NoStray(h, who, n)
    ensures Truthful(h[n])
  {
    if n > 0 {
      NoStrayTruthful(h, who, n - 1);
      AlwaysUnique(h, who, n - 1);
      assert Next(h[n - 1], who[n - 1], h[n - 1 + 1]);
      StrayBreaks(h[n - 1], who[n - 1], h[n]);
    }
  }

  /** In any run every record is true, or about to be cleared by the unmount that moved the
      tape, throughout exactly when no step strays. */
  lemma {:induction false} TruthfulIff(h: seq<Sys>, who: seq<nat>)
    requires Run(h, who)
    ensures (forall n :: 0 <= n < |h| ==> Truthful(h[n])) <==> NoStray(h, who, |who|)
  {
    if NoStray(h, who, |who|) {
      forall n | 0 <= n < |h| ensures Truthful(h[n]) { NoStrayTruthful(h, who, n); }
    } else {
      var k :| 0 <= k < |who| && Strays(h[k], who[k], h[k + 1]);
      assert Next(h[k], who[k], h[k + 1]);
      AlwaysUnique(h, who, k);
      if Truthful(h[k]) { StrayBreaks(h[k], who[k], h[k + 1]); }
    }
  }

  /** The records on unlocked drives are true. */
  ghost predicate UnlockedTrue(s: Sys) {
    forall m, d | 0 <= m < |s.media| && s.media[m].recorded == Some(d) && d < |s.drives| && !s.drives[d].locked ::
      s.media[m].at == In(d)
  }

  ghost predicate Unlocks(s: Sys, i: nat, s': Sys)
    requires Known(s) && i < |s.ops|
  {
    GiveUp(s, i, s') || LabelFails(s, i, s') || Finish(s, i, s')
  }

  /** Medium `m` is recorded in drive `d` and is not in it. */
  predicate Displaced(s: Sys, d: DriveId, m: MediumId) {
    m < |s.media| && s.media[m].recorded == Some(d) && s.media[m].at != In(d)
  }

  /** The step lays a false record open: it unlocks a drive that has one, or moves the recorded
      tape out of an unlocked drive, or records on an unlocked drive a tape that is not in it. */
  ghost predicate Exposes(s: Sys, i: nat, s': Sys) {
    && Known(s) && i < |s.ops|
    && var op := s.ops[i];
       || (Unlocks(s, i, s') && exists m: nat :: Displaced(s, op.drive, m))
       || (!s.drives[op.drive].locked
           && ((Unload(s, i, s')
                && exists m: nat :: m < |s.media| && s.media[m].at == In(op.drive) && s.media[m].recorded == Some(op.drive))
               || (op.mount && Record(s, i, s') && s.media[op.medium].at != In(op.drive))))
  }

  lemma {:induction false} UnlockExposes(s: Sys, i: nat, s': Sys)
    requires UnlockedTrue(s) && Next(s, i, s') && Unlocks(s, i, s')
    ensures UnlockedTrue(s') <==> !Exposes(s, i, s')
  {
    var d := s.ops[i].drive;
    assert s'.media == s.media && !s'.drives[d].locked;
    assert s'.ops[i].phase in {Done, Failing} && !Unload(s, i, s') && !Record(s, i, s');
    StepFrame(s, i, s');
    if m: nat :| Displaced(s, d, m) {
      assert s'.media[m].recorded == Some(d) && s'.media[m].at != In(d);
    } else {
      forall m, e | 0 <= m < |s'.media| && s'.media[m].recorded == Some(e) && e < |s'.drives| && !s'.drives[e].locked
        ensures s'.media[m].at == In(e)
      {
        assert !Displaced(s, d, m);
      }
    }
  }

  lemma {:induction false} UnloadExposes(s: Sys, i: nat, s': Sys)
    requires Unique(s) && UnlockedTrue(s) && Next(s, i, s') && Unload(s, i, s')
    ensures UnlockedTrue(s') <==> !Exposes(s, i, s')
  {
    var op := s.ops[i];
    var x :| 0 <= x < |s.media| && s.media[x].at == In(op.drive)
             && s' == To(Put(s, x, s.media[x].(at := Slot(op.medium))), i, Moved);
    if Exposes(s, i, s') {
      assert s'.media[x].recorded == Some(op.drive) && s'.media[x].at == Slot(op.medium);
    }
  }

  lemma {:induction false} RecordExposes(s: Sys, i: nat, s': Sys)
    requires UnlockedTrue(s) && Next(s, i, s') && Record(s, i, s')
    ensures UnlockedTrue(s') <==> !Exposes(s, i, s')
  {
    var op := s.ops[i];
    if op.mount { assert s'.media[op.medium].recorded == Some(op.drive); }
  }

  /** While the records on unlocked drives are true, a step keeps them so exactly when it exposes none. */
  lemma {:induction false} ExposeBreaks(s: Sys, i: nat, s': Sys)
    requires Unique(s) && UnlockedTrue(s) && Next(s, i, s')
    ensures UnlockedTrue(s') <==> !Exposes(s, i, s')
  {
    if Unlocks(s, i, s') {
      UnlockExposes(s, i, s');
    } else if Unload(s, i, s') {
      UnloadExposes(s, i, s');
    } else if Record(s, i, s') {
      RecordExposes(s, i, s');
    } else {
      OthersExposeNothing(s, i, s');
    }
  }

  lemma {:induction false} OthersExposeNothing(s: Sys, i: nat, s': Sys)
    requires UnlockedTrue(s) && Next(s, i, s') && !Unlocks(s, i, s') && !Unload(s, i, s') && !Record(s, i, s')
    ensures UnlockedTrue(s')
  {
    StepFrame(s, i, s');
    assert forall d :: 0 <= d < |s.drives| && s.drives[d].locked ==> s'.drives[d].locked;
    assert forall m :: 0 <= m < |s.media| ==> s'.media[m].recorded == s.media[m].recorded;
  }

  ghost predicate NoneExposed(h: seq<Sys>, who: seq<nat>, n: nat)
    requires n <= |who| < |h|
  {
    forall k :: 0 <= k < n ==> !Exposes(h[k], who[k], h[k + 1])
  }

  lemma {:induction false} NoneExposedTrue(h: seq<Sys>, who: seq<nat>, n: nat)
    requires Run(h, who) && n <= |who| && NoneExposed(h, who, n)
    ensures UnlockedTrue(h[n])
  {
    if n > 0 {
      NoneExposedTrue(h, who, n - 1);
      AlwaysUnique(h, who, n - 1);
      assert Next(h[n - 1], who[n - 1], h[n - 1 + 1]);
      ExposeBreaks(h[n - 1], who[n - 1], h[n]);
    }
  }

  /** In any run the records on unlocked drives are true throughout exactly when no step exposes one. */
  lemma {:induction false} RecordsTrueIff(h: seq<Sys>, who: seq<nat>)
    requires Run(h, who)
    ensures (forall n :: 0 <= n < |h| ==> UnlockedTrue(h[n])) <==> NoneExposed(h, who, |who|)
  {
    if NoneExposed(h, who, |who|) {
      forall n | 0 <= n < |h| ensures UnlockedTrue(h[n]) { NoneExposedTrue(h, who, n); }
    } else {
      var k :| 0 <= k < |who| && Exposes(h[k], who[k], h[k + 1]);
      assert Next(h[k], who[k], h[k + 1]);
      AlwaysUnique(h, who, k);
      if UnlockedTrue(h[k]) { ExposeBreaks(h[k], who[k], h[k + 1]); }
    }
  }

  /** Without stray steps an unlock exposes a record exactly when another operation, an unmount,
      has emptied the drive of a medium still recorded there. */
  lemma {:induction false} UnlockBesideUnmount(h: seq<Sys>, who: seq<nat>, n: nat)
    requires Run(h, who) && n < |who| && NoStray(h, who, n)
    requires Known(h[n]) && who[n] < |h[n].ops| && Unlocks(h[n], who[n], h[n + 1])
    ensures var s, d := h[n], h[n].ops[who[n]].drive;
            Exposes(s, who[n], h[n + 1])
            <==> exists m: nat, k: nat :: k != who[n] && Displaced(s, d, m) && Emptied(s, k, d, m)
  {
    NoStrayTruthful(h, who, n);
    var s, d := h[n], h[n].ops[who[n]].drive;
    if m: nat :| Displaced(s, d, m) {
      var k: nat :| Emptied(s, k, d, m);
      assert k != who[n];
    }
  }

  /** Without late unlocks that is always so: on an unlocked drive a recorded medium is
      physically there. In any run it is the only one recorded. */
  lemma {:induction false} RecordsTrue(h: seq<Sys>, who: seq<nat>, n: nat)
    requires Run(h, who) && n <= |who|
    ensures OnTime(h, who, n) ==> NoStray(h, who, n) && UnlockedTrue(h[n])
    ensures Unique(h[n])
  {
    AlwaysUnique(h, who, n);
    if OnTime(h, who, n) {
      OnTimeNoStray(h, who, n);
      OnTimeInv(h, who, n);
      InvUnlockedTrue(h[n]);
    }
  }

  lemma {:induction false} InvUnlockedTrue(s: Sys)
    requires Inv(s)
    ensures UnlockedTrue(s)
  {
    forall m, d | 0 <= m < |s.media| && s.media[m].recorded == Some(d) && d < |s.drives| && !s.drives[d].locked
      ensures s.media[m].at == In(d)
    {
      if i :| Emptied(s, i, d, m) { assert Inside(s, i, d); }
    }
  }

  lemma {:induction false} OnTimeNoStray(h: seq<Sys>, who: seq<nat>, n: nat)
    requires Run(h, who) && n <= |who| && OnTime(h, who, n)
    ensures NoStray(h, who, n)
  {
    forall k | 0 <= k < n ensures !Strays(h[k], who[k], h[k + 1]) {
      assert Next(h[k], who[k], h[k + 1]);
      OnTimeInv(h, who, k);
      OnTimeInv(h, who, k + 1);
      AlwaysUnique(h, who, k);
      StrayBreaks(h[k], who[k], h[k + 1]);
    }
  }

  /******* Counters *******/

  function DriveMounts(ds: seq<Drive>): nat {
    if ds == [] then 0 else DriveMounts(ds[..|ds| - 1]) + ds[|ds| - 1].mounts
  }

  function MediumMounts(ms: seq<Medium>): nat {
    if ms == [] then 0 else MediumMounts(ms[..|ms| - 1]) + ms[|ms| - 1].mounts
  }

  /** How many mounts are counted on their drive and not yet on their medium. */
  function Between(ops: seq<Op>): nat {
    if ops == [] then 0
    else
      var op := ops[|ops| - 1];
      Between(ops[..|ops| - 1]) + if op.mount && op.phase == Counted then 1 else 0
  }

  function Balance(s: Sys): int {
    DriveMounts(s.drives) - MediumMounts(s.media) - Between(s.ops)
  }

  lemma {:induction false} DriveSet(ds: seq<Drive>, d: nat, x: Drive)
    requires d < |ds|
    ensures DriveMounts(ds[d := x]) == DriveMounts(ds) - ds[d].mounts + x.mounts
  {
    var n := |ds| - 1;
    if d == n {
      assert ds[d := x][..n] == ds[..n];
    } else {
      assert ds[d := x][..n] == ds[..n][d := x];
      DriveSet(ds[..n], d, x);
    }
  }

  lemma {:induction false} MediumSet(ms: seq<Medium>, m: nat, x: Medium)
    requires m < |ms|
    ensures MediumMounts(ms[m := x]) == MediumMounts(ms) - ms[m].mounts + x.mounts
  {
    var n := |ms| - 1;
    if m == n {
      assert ms[m := x][..n] == ms[..n];
    } else {
      assert ms[m := x][..n] == ms[..n][m := x];
      MediumSet(ms[..n], m, x);
    }
  }

  lemma {:induction false} OpSet(ops: seq<Op>, i: nat, x: Op)
    requires i < |ops|
    ensures Between(ops[i := x]) == Between(ops) - (if ops[i].mount && ops[i].phase == Counted then 1 else 0)
                                    + if x.mount && x.phase == Counted then 1 else 0
  {
    var n := |ops| - 1;
    if i == n {
      assert ops[i := x][..n] == ops[..n];
    } else {
      assert ops[i := x][..n] == ops[..n][i := x];
      OpSet(ops[..n], i, x);
    }
  }

  lemma {:induction false} StepBalance(s: Sys, i: nat, s': Sys)
    requires Next(s, i, s')
    ensures Balance(s') == Balance(s) + if Clash(s, i, s') then 1 else 0
  {
    StepFrame(s, i, s');
    var op := s.ops[i];
    OpSet(s.ops, i, s'.ops[i]);
    DriveBalance(s, i, s');
    assert s'.ops == s.ops[i := s'.ops[i]];
    MediaBalance(s, i, s');
  }

  lemma {:induction false} DriveBalance(s: Sys, i: nat, s': Sys)
    requires Next(s, i, s')
    ensures DriveMounts(s'.drives) == DriveMounts(s.drives) + if CountDrive(s, i, s') then 1 else 0
  {
    StepFrame(s, i, s');
    var d := s.ops[i].drive;
    DriveSet(s.drives, d, s'.drives[d]);
    assert s'.drives[d].mounts == s.drives[d].mounts + if CountDrive(s, i, s') then 1 else 0;
    assert s'.drives == s.drives[d := s'.drives[d]];
  }

  lemma {:induction false} MediaBalance(s: Sys, i: nat, s': Sys)
    requires Next(s, i, s')
    ensures MediumMounts(s'.media) == MediumMounts(s.media) + if Record(s, i, s') && s.ops[i].mount then 1 else 0
  {
    var op := s.ops[i];
    if Load(s, i, s') {
      var x :| 0 <= x < |s.media| && s.media[x].at == Slot(op.medium)
               && s' == To(Put(s, x, s.media[x].(at := In(op.drive))), i, Moved);
      MediumSet(s.media, x, s.media[x].(at := In(op.drive)));
    } else if Unload(s, i, s') {
      var x :| 0 <= x < |s.media| && s.media[x].at == In(op.drive)
               && s' == To(Put(s, x, s.media[x].(at := Slot(op.medium))), i, Moved);
      MediumSet(s.media, x, s.media[x].(at := Slot(op.medium)));
    } else if Record(s, i, s') {
      MediumSet(s.media, op.medium, s'.media[op.medium]);
    }
  }

  /** How many of the first `n` steps were a mount refused by the unique column. */
  ghost function Clashes(h: seq<Sys>, who: seq<nat>, n: nat): nat
    requires n <= |who| < |h| && forall k :: 0 <= k < |who| ==> Next(h[k], who[k], h[k + 1])
  {
    if n == 0 then 0 else Clashes(h, who, n - 1) + if Clash(h[n - 1], who[n - 1], h[n]) then 1 else 0
  }

  /** In any run: mounts counted on drives less mounts counted on media change by the
      mounts between the two counts and those that ended there. */
  lemma {:induction false} MountsConserved(h: seq<Sys>, who: seq<nat>, n: nat)
    requires Run(h, who) && n <= |who|
    ensures DriveMounts(h[n].drives) - MediumMounts(h[n].media)
            == DriveMounts(h[0].drives) - MediumMounts(h[0].media) + Between(h[n].ops) + Clashes(h, who, n)
  {
    NoneBetween(h[0].ops);
    RunBalance(h, who, n);
  }

  lemma {:induction false} RunBalance(h: seq<Sys>, who: seq<nat>, n: nat)
    requires Run(h, who) && n <= |who|
    ensures Balance(h[n]) == Balance(h[0]) + Clashes(h, who, n)
  {
    if n > 0 {
      RunBalance(h, who, n - 1);
      assert Next(h[n - 1], who[n - 1], h[n - 1 + 1]);
      StepBalance(h[n - 1], who[n - 1], h[n]);
    }
  }

  /** Without late unlocks no mount ends there. */
  lemma {:induction false} OnTimeNoClash(h: seq<Sys>, who: seq<nat>, n: nat)
    requires Run(h, who) && n <= |who| && OnTime(h, who, n)
    ensures Clashes(h, who, n) == 0
  {
    if n > 0 {
      OnTimeNoClash(h, who, n - 1);
      OnTimeInv(h, who, n - 1);
      assert Next(h[n - 1], who[n - 1], h[n - 1 + 1]);
      NoClash(h[n - 1], who[n - 1], h[n]);
    }
  }

  lemma {:induction false} NoneBetween(ops: seq<Op>)
    requires forall i :: 0 <= i < |ops| ==> ops[i].phase == Waiting
    ensures Between(ops) == 0
  {
    if ops != [] { NoneBetween(ops[..|ops| - 1]); }
  }

  /******* One operation *******/

  /** How a mount or an unmount ends. */
  datatype Ending = Finished | DriveLocked | NothingMounted | RobotFailed | LabelFailed | Integrity

  /** The states that one operation alone goes through. */
  ghost predicate Alone(h: seq<Sys>) {
    h != [] && forall k :: 0 <= k < |h| - 1 ==> Next(h[k], 0, h[k + 1])
  }

  lemma {:induction false} AloneMore(h: seq<Sys>, s': Sys)
    requires Alone(h) && Next(h[|h| - 1], 0, s')
    ensures Alone(h + [s'])
  {
    var h' := h + [s'];
    forall k | 0 <= k < |h'| - 1 ensures Next(h'[k], 0, h'[k + 1]) {
      if k < |h| - 1 { assert Next(h[k], 0, h[k + 1]); }
    }
  }

  /** The robot can move what is at `from` to `to`: it works, something is there, and nothing yet at `to`. */
  predicate CanMove(media: seq<Medium>, from: Place, to: Place, works: bool) {
    && works && (exists y :: 0 <= y < |media| && media[y].at == from)
    && forall y :: 0 <= y < |media| ==> media[y].at != to
  }

  /** From `a` to `b` a medium was moved from one place to another, and nothing else changed. */
  ghost predicate Carried(a: seq<Medium>, b: seq<Medium>, from: Place, to: Place) {
    exists x :: 0 <= x < |a| && a[x].at == from && b == a[x := a[x].(at := to)]
  }

  /** As Carried, and medium `m` is recorded in `drive`, or in none, with so many mounts more. */
  ghost predicate Rewritten(a: seq<Medium>, b: seq<Medium>, from: Place, to: Place, m: MediumId,
                            drive: Option<DriveId>, more: nat) {
    exists c: seq<Medium> :: Carried(a, c, from, to) && m < |c|
                && b == c[m := Medium(drive, c[m].mounts + more, c[m].at)]
  }

  /** Another medium than `m` is recorded in drive `d`. */
  predicate Rivalled(media: seq<Medium>, d: DriveId, m: MediumId) {
    exists x :: 0 <= x < |media| && x != m && media[x].recorded == Some(d)
  }

  lemma {:induction false} RewrittenRows(a: seq<Medium>, b: seq<Medium>, from: Place, to: Place, m: MediumId,
                                         drive: Option<DriveId>, more: nat) returns (x: MediumId)
    requires Rewritten(a, b, from, to, m, drive, more)
    ensures |b| == |a| && x < |a| && a[x].at == from && b[x].at == to
    ensures forall y :: 0 <= y < |a| && y != x ==> b[y].at == a[y].at
    ensures m < |a| && b[m].recorded == drive && b[m].mounts == a[m].mounts + more
    ensures forall y :: 0 <= y < |a| && y != m ==> b[y].recorded == a[y].recorded && b[y].mounts == a[y].mounts
  {
    var c: seq<Medium> :| Carried(a, c, from, to) && m < |c| && b == c[m := Medium(drive, c[m].mounts + more, c[m].at)];
    x := CarriedRows(a, c, from, to);
    UpdatedRows(a, c, b, x, m, Medium(drive, c[m].mounts + more, c[m].at));
  }

  lemma {:induction false} UpdatedRows(a: seq<Medium>, c: seq<Medium>, b: seq<Medium>, x: MediumId, m: MediumId, row: Medium)
    requires x < |a| == |c| && m < |c| && b == c[m := row] && row.at == c[m].at
    requires forall y :: 0 <= y < |a| && y != x ==> c[y].at == a[y].at
    requires forall y :: 0 <= y < |a| ==> c[y].recorded == a[y].recorded && c[y].mounts == a[y].mounts
    ensures b[x].at == c[x].at && b[m] == row
    ensures forall y :: 0 <= y < |a| && y != x ==> b[y].at == a[y].at
    ensures forall y :: 0 <= y < |a| && y != m ==> b[y].recorded == a[y].recorded && b[y].mounts == a[y].mounts
  {
    forall y | 0 <= y < |a| && y != x ensures b[y].at == a[y].at { assert c[y].at == a[y].at; }
    forall y | 0 <= y < |a| && y != m ensures b[y].recorded == a[y].recorded && b[y].mounts == a[y].mounts {
      assert b[y] == c[y];
    }
  }

  lemma {:induction false} CarriedRows(a: seq<Medium>, b: seq<Medium>, from: Place, to: Place) returns (x: MediumId)
    requires Carried(a, b, from, to)
    ensures |b| == |a| && x < |a| && a[x].at == from && b[x].at == to
    ensures forall y :: 0 <= y < |a| && y != x ==> b[y].at == a[y].at
    ensures forall y :: 0 <= y < |a| ==> b[y].recorded == a[y].recorded && b[y].mounts == a[y].mounts
  {
    x :| 0 <= x < |a| && a[x].at == from && b == a[x := a[x].(at := to)];
  }

  lemma {:induction false} SameRecords(a: seq<Medium>, b: seq<Medium>, from: Place, to: Place, m: MediumId, d: DriveId)
    requires Carried(a, b, from, to)
    ensures |b| == |a| && forall k :: 0 <= k < |a| ==> b[k].recorded == a[k].recorded && b[k].mounts == a[k].mounts
    ensures Rivalled(b, d, m) <==> Rivalled(a, d, m)
  {
    if x :| 0 <= x < |a| && x != m && a[x].recorded == Some(d) { assert b[x].recorded == Some(d); }
    if x :| 0 <= x < |b| && x != m && b[x].recorded == Some(d) { assert a[x].recorded == Some(d); }
  }

  /** The rows that the operations update. */
  class Library {
    var drives: seq<Drive>
    var media: seq<Medium>

    constructor (drives: seq<Drive>, media: seq<Medium>)
      ensures this.drives == drives && this.media == media
    {
      this.drives, this.media := drives, media;
    }

    ghost function State(op: Op): Sys reads this { Sys(drives, media, [op]) }

    /** The medium recorded in a drive, if there is one. */
    method RecordedIn(d: DriveId) returns (m: Option<MediumId>)
      ensures m.Some? ==> m.value < |media| && media[m.value].recorded == Some(d)
      ensures m.None? ==> forall x :: 0 <= x < |media| ==> media[x].recorded != Some(d)
    {
      for x := 0 to |media|
        invariant forall y :: 0 <= y < x ==> media[y].recorded != Some(d)
      {
        if media[x].recorded == Some(d) { return Some(x); }
      }
      return None;
    }

    /** The robot moves the medium at `from` to `to` if it works and can. */
    method Move(from: Place, to: Place, works: bool) returns (ok: bool, ghost x: nat)
      modifies `media
      ensures |media| == |old(media)|
      ensures ok <==> CanMove(old(media), from, to, works)
      ensures ok ==> Carried(old(media), media, from, to)
      ensures ok ==> x < |media| && old(media)[x].at == from
                     && media == old(media)[x := old(media)[x].(at := to)]
      ensures !ok ==> media == old(media)
    {
      var i := 0;
      var found: Option<nat> := None;
      ok := works;
      while i < |media|
        invariant 0 <= i <= |media|
        invariant found.None? ==> forall y :: 0 <= y < i ==> media[y].at != from
        invariant found.Some? ==> found.value < i && media[found.value].at == from
        invariant ok <==> works && forall y :: 0 <= y < i ==> media[y].at != to
      {
        if media[i].at == from { found := Some(i); }
        if media[i].at == to { ok := false; }
        i := i + 1;
      }
      x := 0;
      if ok && found.Some? {
        x := found.value;
        media := media[found.value := media[found.value].(at := to)];
      } else {
        ok := false;
      }
    }

    /** Mounts a medium. Whether the robot works, the drive comes online and the label
        is good is not known before. Every ending but a clash leaves the drive unlocked;
        the whole call is a run of the steps of one operation. */
    method Mount(d: DriveId, m: MediumId, works: bool, online: bool, labelled: bool)
      returns (r: Ending, ghost h: seq<Sys>)
      requires d < |drives| && m < |media|
      modifies this
      ensures Alone(h) && h[0] == old(State(Op(true, d, m, Waiting))) && h[|h| - 1] == State(Op(true, d, m, Done))
      ensures r == DriveLocked <==> old(drives[d].locked)
      ensures r == DriveLocked ==> drives == old(drives) && media == old(media)
      ensures |drives| == |old(drives)| && |media| == |old(media)|
      ensures r != DriveLocked && r != Integrity ==> !drives[d].locked
      ensures r == Finished || r == LabelFailed ==>
                && media[m].recorded == Some(d) && media[m].mounts == old(media)[m].mounts + 1
                && drives == old(drives)[d := Drive(false, old(drives)[d].mounts + 1)]
      ensures r == RobotFailed <==>
                !old(drives[d].locked) && !(CanMove(old(media), Slot(m), In(d), works) && online)
      ensures r == RobotFailed ==> drives == old(drives)
      ensures r == RobotFailed ==> if CanMove(old(media), Slot(m), In(d), works)
                                   then Carried(old(media), media, Slot(m), In(d)) else media == old(media)
      ensures r == Integrity <==>
                !old(drives[d].locked) && CanMove(old(media), Slot(m), In(d), works) && online
                && exists x :: 0 <= x < |media| && x != m && old(media)[x].recorded == Some(d)
      ensures (r == Finished ==> labelled) && (r == LabelFailed ==> !labelled)
      ensures r == Finished || r == LabelFailed ==>
                Rewritten(old(media), media, Slot(m), In(d), m, Some(d), 1)
      ensures r == Integrity ==> Carried(old(media), media, Slot(m), In(d))
                                 && drives == old(drives)[d := Drive(true, old(drives)[d].mounts + 1)]
    {
      ghost var op := Op(true, d, m, Waiting);
      h := [State(op)];
      if drives[d].locked {
        assert Refuse(State(op), 0, State(op.(phase := Done)));
        AloneMore(h, State(op.(phase := Done)));
        h := h + [State(op.(phase := Done))];
        return DriveLocked, h;
      }
      drives := drives[d := drives[d].(locked := true)];
      assert Begin(h[0], 0, State(op.(phase := Held)));
      AloneMore(h, State(op.(phase := Held)));
      h := h + [State(op.(phase := Held))];
      r, h := MountLocked(d, m, works, online, labelled, h);
    }

    /** The rest of a mount that has the lock. */
    method MountLocked(d: DriveId, m: MediumId, works: bool, online: bool, labelled: bool, ghost h0: seq<Sys>)
      returns (r: Ending, ghost h: seq<Sys>)
      requires d < |drives| && m < |media| && drives[d].locked
      requires Alone(h0) && h0[|h0| - 1] == State(Op(true, d, m, Held))
      modifies this
      ensures Alone(h) && h[0] == h0[0] && h[|h| - 1] == State(Op(true, d, m, Done))
      ensures |drives| == |old(drives)| && |media| == |old(media)| && r != DriveLocked && r != NothingMounted
      ensures r == RobotFailed <==> !(CanMove(old(media), Slot(m), In(d), works) && online)
      ensures r == RobotFailed ==>
                && drives == old(drives)[d := old(drives)[d].(locked := false)]
                && if CanMove(old(media), Slot(m), In(d), works)
                   then Carried(old(media), media, Slot(m), In(d)) else media == old(media)
      ensures r == Integrity ==>
                && Rivalled(old(media), d, m) && Carried(old(media), media, Slot(m), In(d))
                && drives == old(drives)[d := Drive(true, old(drives)[d].mounts + 1)]
      ensures r == Finished || r == LabelFailed ==>
                && !Rivalled(old(media), d, m) && (r == Finished <==> labelled)
                && drives == old(drives)[d := Drive(false, old(drives)[d].mounts + 1)]
                && Rewritten(old(media), media, Slot(m), In(d), m, Some(d), 1)
                && media[m].recorded == Some(d) && media[m].mounts == old(media)[m].mounts + 1
    {
      var ok;
      ok, h := PutIn(d, m, works, online, h0);
      if !ok { return RobotFailed, h; }
      SameRecords(old(media), media, Slot(m), In(d), m, d);
      r, h := Count(d, m, labelled, h);
    }

    /** The robot, and the wait for the drive, of a mount that has the lock. */
    method PutIn(d: DriveId, m: MediumId, works: bool, online: bool, ghost h0: seq<Sys>)
      returns (ok: bool, ghost h: seq<Sys>)
      requires d < |drives| && m < |media|
      requires Alone(h0) && h0[|h0| - 1] == State(Op(true, d, m, Held))
      modifies this
      ensures ok <==> CanMove(old(media), Slot(m), In(d), works) && online
      ensures if CanMove(old(media), Slot(m), In(d), works) then Carried(old(media), media, Slot(m), In(d))
              else media == old(media)
      ensures drives == if ok then old(drives) else old(drives)[d := old(drives)[d].(locked := false)]
      ensures Alone(h) && h[0] == h0[0] && h[|h| - 1] == State(Op(true, d, m, if ok then Moved else Done))
    {
      ghost var op := Op(true, d, m, Held);
      h := h0;
      ghost var x;
      ok, x := Move(Slot(m), In(d), works);
      if ok {
        assert Load(h[|h| - 1], 0, State(op.(phase := Moved)));
        AloneMore(h, State(op.(phase := Moved)));
        h := h + [State(op.(phase := Moved))];
      }
      if !ok || !online {
        ghost var s := h[|h| - 1];
        drives := drives[d := drives[d].(locked := false)];
        assert GiveUp(s, 0, State(op.(phase := Done)));
        AloneMore(h, State(op.(phase := Done)));
        h := h + [State(op.(phase := Done))];
        ok := false;
      }
    }

    /** The counts and the record of a mount whose tape is in the drive, then its label. */
    method Count(d: DriveId, m: MediumId, labelled: bool, ghost h0: seq<Sys>) returns (r: Ending, ghost h: seq<Sys>)
      requires d < |drives| && m < |media|
      requires Alone(h0) && h0[|h0| - 1] == State(Op(true, d, m, Moved))
      modifies this
      ensures Alone(h) && h[0] == h0[0] && h[|h| - 1] == State(Op(true, d, m, Done))
      ensures |drives| == |old(drives)| && |media| == |old(media)|
      ensures r == if Rivalled(old(media), d, m) then Integrity else if labelled then Finished else LabelFailed
      ensures r == Integrity ==>
                drives == old(drives)[d := old(drives)[d].(mounts := old(drives)[d].mounts + 1)] && media == old(media)
      ensures r != Integrity ==>
                && drives == old(drives)[d := Drive(false, old(drives)[d].mounts + 1)]
                && media == old(media)[m := old(media)[m].(recorded := Some(d), mounts := old(media)[m].mounts + 1)]
    {
      ghost var op := Op(true, d, m, Counted);
      drives := drives[d := drives[d].(mounts := drives[d].mounts + 1)];
      assert CountDrive(h0[|h0| - 1], 0, State(op));
      AloneMore(h0, State(op));
      h := h0 + [State(op)];
      var other := RecordedOther(d, m);
      if other {
        assert Clash(State(op), 0, State(op.(phase := Done)));
        AloneMore(h, State(op.(phase := Done)));
        h := h + [State(op.(phase := Done))];
        return Integrity, h;
      }
      media := media[m := media[m].(recorded := Some(d), mounts := media[m].mounts + 1)];
      assert Record(h[|h| - 1], 0, State(op.(phase := Recorded)));
      AloneMore(h, State(op.(phase := Recorded)));
      h := h + [State(op.(phase := Recorded))];
      h := Label(d, m, labelled, h);
      r := if labelled then Finished else LabelFailed;
    }

    /** The label of a recorded mount: if it fails the handler unlocks, and the end unlocks always. */
    method Label(d: DriveId, m: MediumId, labelled: bool, ghost h0: seq<Sys>) returns (ghost h: seq<Sys>)
      requires d < |drives| && m < |media|
      requires Alone(h0) && h0[|h0| - 1] == State(Op(true, d, m, Recorded))
      modifies `drives
      ensures Alone(h) && h[0] == h0[0] && h[|h| - 1] == State(Op(true, d, m, Done))
      ensures drives == old(drives)[d := old(drives)[d].(locked := false)]
    {
      ghost var op := Op(true, d, m, Recorded);
      h := h0;
      if !labelled {
        drives := drives[d := drives[d].(locked := false)];
        assert LabelFails(h[|h| - 1], 0, State(op.(phase := Failing)));
        AloneMore(h, State(op.(phase := Failing)));
        h := h + [State(op.(phase := Failing))];
      }
      drives := drives[d := drives[d].(locked := false)];
      assert Finish(h[|h| - 1], 0, State(op.(phase := Done)));
      AloneMore(h, State(op.(phase := Done)));
      h := h + [State(op.(phase := Done))];
    }

    method RecordedOther(d: DriveId, m: MediumId) returns (b: bool)
      ensures b <==> Rivalled(media, d, m)
    {
      b := false;
      for x := 0 to |media|
        invariant b <==> exists y :: 0 <= y < x && y != m && media[y].recorded == Some(d)
      {
        if x != m && media[x].recorded == Some(d) { b := true; }
      }
    }

    /** Unmounts what is recorded in a drive. Every ending leaves the drive as unlocked as it was. */
    method Unmount(d: DriveId, works: bool) returns (r: Ending, ghost h: seq<Sys>, ghost m: MediumId)
      requires d < |drives| && media != []
      modifies this
      ensures Alone(h) && h[0] == old(State(Op(false, d, 0, Waiting))) && h[|h| - 1] == State(Op(false, d, m, Done))
      ensures drives == old(drives) && |media| == |old(media)|
      ensures r == NothingMounted <==> forall x :: 0 <= x < |media| ==> old(media)[x].recorded != Some(d)
      ensures r == DriveLocked <==>
                old(drives)[d].locked && exists x :: 0 <= x < |media| && old(media)[x].recorded == Some(d)
      ensures r != NothingMounted && r != DriveLocked ==> m < |media| && old(media)[m].recorded == Some(d)
      ensures r != NothingMounted && r != DriveLocked ==>
                r == if CanMove(old(media), In(d), Slot(m), works) then Finished else RobotFailed
      ensures r == Finished <==>
                && !old(drives)[d].locked && (exists x :: 0 <= x < |media| && old(media)[x].recorded == Some(d))
                && works && (exists y :: 0 <= y < |media| && old(media)[y].at == In(d))
                && forall y :: 0 <= y < |media| ==> old(media)[y].at != Slot(m)
      ensures r != Finished ==> media == old(media)
      ensures r == Finished ==> Rewritten(old(media), media, In(d), Slot(m), m, None, 0)
    {
      ghost var op := Op(false, d, 0, Waiting);
      h, m := [State(op)], 0;
      var recorded := RecordedIn(d);
      if recorded.None? || drives[d].locked {
        assert Refuse(State(op), 0, State(op.(phase := Done)));
        AloneMore(h, State(op.(phase := Done)));
        h := h + [State(op.(phase := Done))];
        return if recorded.None? then NothingMounted else DriveLocked, h, m;
      }
      var medium := recorded.value;
      m := medium;
      op := Op(false, d, m, Held);
      drives := drives[d := drives[d].(locked := true)];
      assert Begin(h[0], 0, State(op));
      AloneMore(h, State(op));
      h := h + [State(op)];
      r, h := TakeOut(d, medium, works, h);
    }

    /** The robot and the record of an unmount that has the lock. */
    method TakeOut(d: DriveId, m: MediumId, works: bool, ghost h0: seq<Sys>) returns (r: Ending, ghost h: seq<Sys>)
      requires d < |drives| && m < |media|
      requires Alone(h0) && h0[|h0| - 1] == State(Op(false, d, m, Held))
      modifies this
      ensures Alone(h) && h[0] == h0[0] && h[|h| - 1] == State(Op(false, d, m, Done))
      ensures drives == old(drives)[d := old(drives)[d].(locked := false)] && |media| == |old(media)|
      ensures r == if CanMove(old(media), In(d), Slot(m), works) then Finished else RobotFailed
      ensures r == RobotFailed ==> media == old(media)
      ensures r == Finished ==> Rewritten(old(media), media, In(d), Slot(m), m, None, 0)
    {
      ghost var op := Op(false, d, m, Held);
      h := h0;
      var ok, x := Move(In(d), Slot(m), works);
      if ok {
        assert Unload(h[|h| - 1], 0, State(op.(phase := Moved)));
        AloneMore(h, State(op.(phase := Moved)));
        h := h + [State(op.(phase := Moved))];
        assert Carried(old(media), media, In(d), Slot(m));
        media := media[m := media[m].(recorded := None)];
        assert Record(h[|h| - 1], 0, State(op.(phase := Recorded)));
        AloneMore(h, State(op.(phase := Recorded)));
        h := h + [State(op.(phase := Recorded))];
      }
      drives := drives[d := drives[d].(locked := false)];
      assert if ok then Finish(h[|h| - 1], 0, State(op.(phase := Done))) else GiveUp(h[|h| - 1], 0, State(op.(phase := Done)));
      AloneMore(h, State(op.(phase := Done)));
      h := h + [State(op.(phase := Done))];
      r := if ok then Finished else RobotFailed;
    }
  }
}
