/** Runs of mounts and unmounts that go wrong after a second unlock. */
module TapeRuns {
  import opened Rows
  import opened Tapes

  /** One drive and one medium; a mount whose label fails, and two unmounts. */
  function Sample(locked: bool, medium: Medium, mounts: nat, p: Phase, q: Phase, r: Phase): Sys {
    Sys([Drive(locked, mounts)], [medium], [Op(true, 0, 0, p), Op(false, 0, 0, q), Op(false, 0, 0, r)])
  }

  const STORED := Medium(None, 0, Slot(0))
  const LOADED := Medium(None, 0, In(0))
  const MOUNTED := Medium(Some(0), 1, In(0))

  lemma {:induction false} SampleMount()
    ensures Next(Sample(false, STORED, 0, Waiting, Waiting, Waiting), 0, Sample(true, STORED, 0, Held, Waiting, Waiting))
    ensures Next(Sample(true, STORED, 0, Held, Waiting, Waiting), 0, Sample(true, LOADED, 0, Moved, Waiting, Waiting))
  {
    var s, s' := Sample(true, STORED, 0, Held, Waiting, Waiting), Sample(true, LOADED, 0, Moved, Waiting, Waiting);
    assert Begin(Sample(false, STORED, 0, Waiting, Waiting, Waiting), 0, s);
    assert s.media[0].at == Slot(s.ops[0].medium) && s' == To(Put(s, 0, s.media[0].(at := In(0))), 0, Moved);
    assert Load(s, 0, s');
  }

  lemma {:induction false} SampleRecord()
    ensures Next(Sample(true, LOADED, 0, Moved, Waiting, Waiting), 0, Sample(true, LOADED, 1, Counted, Waiting, Waiting))
    ensures Next(Sample(true, LOADED, 1, Counted, Waiting, Waiting), 0, Sample(true, MOUNTED, 1, Recorded, Waiting, Waiting))
    ensures Next(Sample(true, MOUNTED, 1, Recorded, Waiting, Waiting), 0, Sample(false, MOUNTED, 1, Failing, Waiting, Waiting))
  {
    assert CountDrive(Sample(true, LOADED, 0, Moved, Waiting, Waiting), 0, Sample(true, LOADED, 1, Counted, Waiting, Waiting));
    assert Record(Sample(true, LOADED, 1, Counted, Waiting, Waiting), 0, Sample(true, MOUNTED, 1, Recorded, Waiting, Waiting));
    assert LabelFails(Sample(true, MOUNTED, 1, Recorded, Waiting, Waiting), 0,
                      Sample(false, MOUNTED, 1, Failing, Waiting, Waiting));
  }

  lemma {:induction false} SampleUnmount(i: nat, s: Sys, s': Sys)
    requires 1 <= i <= 2 && |s.ops| == 3 && s.ops[i] == Op(false, 0, 0, Waiting) && s.media == [MOUNTED]
    requires Known(s) && s.drives == [Drive(false, 1)]
    requires s' == To(Lock(s, 0, true), i, Held)
    ensures Next(s, i, s')
  {
    assert s.media[0].recorded == Some(s.ops[i].drive);
    assert Begin(s, i, s');
  }

  lemma {:induction false} RunMore(h: seq<Sys>, who: seq<nat>, i: nat, s': Sys) returns (h': seq<Sys>, who': seq<nat>)
    requires Run(h, who) && Next(h[|who|], i, s')
    ensures Run(h', who') && h'[|who'|] == s' && h' == h + [s'] && who' == who + [i]
  {
    h', who' := h + [s'], who + [i];
    forall k | 0 <= k < |who'| ensures Next(h'[k], who'[k], h'[k + 1]) {
      if k < |who| { assert Next(h[k], who[k], h[k + 1]); }
    }
  }

  ghost predicate AllTruthful(h: seq<Sys>) { forall k :: 0 <= k < |h| ==> Truthful(h[k]) }

  lemma {:induction false} MountStarted() returns (h: seq<Sys>, who: seq<nat>)
    ensures Run(h, who) && h[|who|] == Sample(true, LOADED, 0, Moved, Waiting, Waiting) && AllTruthful(h)
  {
    SampleMount();
    h, who := [Sample(false, STORED, 0, Waiting, Waiting, Waiting)], [];
    h, who := RunMore(h, who, 0, Sample(true, STORED, 0, Held, Waiting, Waiting));
    h, who := RunMore(h, who, 0, Sample(true, LOADED, 0, Moved, Waiting, Waiting));
  }

  lemma {:induction false} LabelFailure() returns (h: seq<Sys>, who: seq<nat>)
    ensures Run(h, who) && h[|who|] == Sample(false, MOUNTED, 1, Failing, Waiting, Waiting) && AllTruthful(h)
  {
    SampleRecord();
    h, who := MountStarted();
    h, who := RunMore(h, who, 0, Sample(true, LOADED, 1, Counted, Waiting, Waiting));
    h, who := RunMore(h, who, 0, Sample(true, MOUNTED, 1, Recorded, Waiting, Waiting));
    h, who := RunMore(h, who, 0, Sample(false, MOUNTED, 1, Failing, Waiting, Waiting));
  }

  lemma {:induction false} TwoHeld() returns (h: seq<Sys>, who: seq<nat>)
    ensures Run(h, who) && h[|who|] == Sample(true, MOUNTED, 1, Done, Held, Held) && AllTruthful(h)
  {
    var f := Sample(true, MOUNTED, 1, Failing, Held, Waiting);
    var g := Sample(false, MOUNTED, 1, Done, Held, Waiting);
    var e := Sample(true, MOUNTED, 1, Done, Held, Held);
    h, who := LabelFailure();
    SampleUnmount(1, h[|who|], f);
    h, who := RunMore(h, who, 1, f);
    assert Finish(f, 0, g);
    h, who := RunMore(h, who, 0, g);
    SampleUnmount(2, g, e);
    h, who := RunMore(h, who, 2, e);
  }

  /** The first unmount takes the drive between the two unlocks of the mount; the
      second unlock lets the other one in beside it. */
  lemma {:induction false} TwoInside() returns (h: seq<Sys>, who: seq<nat>)
    ensures Run(h, who) && Inside(h[|who|], 1, 0) && Inside(h[|who|], 2, 0)
  {
    h, who := TwoHeld();
  }

  lemma {:induction false} TakenOut() returns (h: seq<Sys>, who: seq<nat>)
    ensures Run(h, who) && AllTruthful(h)
    ensures h[|who|] == Sample(true, Medium(Some(0), 1, Slot(0)), 1, Done, Moved, Held)
  {
    var e := Sample(true, MOUNTED, 1, Done, Held, Held);
    var u := Sample(true, Medium(Some(0), 1, Slot(0)), 1, Done, Moved, Held);
    h, who := TwoHeld();
    assert e.media[0].at == In(0) && u == To(Put(e, 0, e.media[0].(at := Slot(0))), 1, Moved);
    assert Unload(e, 1, u) && Emptied(u, 1, 0, 0);
    h, who := RunMore(h, who, 1, u);
  }

  /** Then the first unmount moves the tape out, the second finds the drive empty and
      unlocks: no step strayed, the drive is unlocked, and its record is false. */
  lemma {:induction false} FalseRecord() returns (h: seq<Sys>, who: seq<nat>)
    ensures Run(h, who) && NoStray(h, who, |who|) && !UnlockedTrue(h[|who|])
  {
    var u := Sample(true, Medium(Some(0), 1, Slot(0)), 1, Done, Moved, Held);
    var v := Sample(false, Medium(Some(0), 1, Slot(0)), 1, Done, Moved, Done);
    h, who := TakenOut();
    assert GiveUp(u, 2, v) && Emptied(v, 1, 0, 0);
    h, who := RunMore(h, who, 2, v);
    TruthfulIff(h, who);
    assert v.media[0].recorded == Some(0) && !v.drives[0].locked;
  }

  /******* A mount that ends between the counts *******/

  /** Two media; a mount of the first whose label fails, its unmount, a mount of the second. */
  function Rival(locked: bool, first: Medium, second: Medium, mounts: nat, p: Phase, q: Phase, r: Phase): Sys {
    Sys([Drive(locked, mounts)], [first, second], [Op(true, 0, 0, p), Op(false, 0, 0, q), Op(true, 0, 1, r)])
  }

  const OTHER := Medium(None, 0, Slot(1))
  const BESIDE := Medium(None, 0, In(0))
  const OUT := Medium(Some(0), 1, Slot(0))

  lemma {:induction false} RivalMount() returns (h: seq<Sys>, who: seq<nat>)
    ensures Run(h, who) && h[|who|] == Rival(true, LOADED, OTHER, 0, Moved, Waiting, Waiting)
  {
    var a := Rival(false, STORED, OTHER, 0, Waiting, Waiting, Waiting);
    var b := Rival(true, STORED, OTHER, 0, Held, Waiting, Waiting);
    var c := Rival(true, LOADED, OTHER, 0, Moved, Waiting, Waiting);
    assert Begin(a, 0, b);
    assert b.media[0].at == Slot(0) && c == To(Put(b, 0, b.media[0].(at := In(0))), 0, Moved);
    assert Load(b, 0, c);
    h, who := RunMore([a], [], 0, b);
    h, who := RunMore(h, who, 0, c);
  }

  lemma {:induction false} RivalFailure() returns (h: seq<Sys>, who: seq<nat>)
    ensures Run(h, who) && h[|who|] == Rival(false, MOUNTED, OTHER, 1, Failing, Waiting, Waiting)
  {
    var c := Rival(true, LOADED, OTHER, 0, Moved, Waiting, Waiting);
    var d := Rival(true, LOADED, OTHER, 1, Counted, Waiting, Waiting);
    var e := Rival(true, MOUNTED, OTHER, 1, Recorded, Waiting, Waiting);
    var f := Rival(false, MOUNTED, OTHER, 1, Failing, Waiting, Waiting);
    h, who := RivalMount();
    assert CountDrive(c, 0, d);
    h, who := RunMore(h, who, 0, d);
    assert Record(d, 0, e);
    h, who := RunMore(h, who, 0, e);
    assert LabelFails(e, 0, f);
    h, who := RunMore(h, who, 0, f);
  }

  lemma {:induction false} RivalHeld() returns (h: seq<Sys>, who: seq<nat>)
    ensures Run(h, who) && h[|who|] == Rival(true, MOUNTED, OTHER, 1, Done, Held, Held)
  {
    var f := Rival(false, MOUNTED, OTHER, 1, Failing, Waiting, Waiting);
    var g := Rival(true, MOUNTED, OTHER, 1, Failing, Held, Waiting);
    var u := Rival(false, MOUNTED, OTHER, 1, Done, Held, Waiting);
    var v := Rival(true, MOUNTED, OTHER, 1, Done, Held, Held);
    h, who := RivalFailure();
    assert f.media[0].recorded == Some(0) && Begin(f, 1, g);
    h, who := RunMore(h, who, 1, g);
    assert Finish(g, 0, u);
    h, who := RunMore(h, who, 0, u);
    assert Begin(u, 2, v);
    h, who := RunMore(h, who, 2, v);
  }

  lemma {:induction false} RivalBeside() returns (h: seq<Sys>, who: seq<nat>)
    ensures Run(h, who) && h[|who|] == Rival(true, OUT, BESIDE, 1, Done, Moved, Moved)
  {
    var v := Rival(true, MOUNTED, OTHER, 1, Done, Held, Held);
    var w := Rival(true, OUT, OTHER, 1, Done, Moved, Held);
    var x := Rival(true, OUT, BESIDE, 1, Done, Moved, Moved);
    h, who := RivalHeld();
    assert v.media[0].at == In(0) && w == To(Put(v, 0, v.media[0].(at := Slot(0))), 1, Moved);
    assert Unload(v, 1, w);
    h, who := RunMore(h, who, 1, w);
    assert w.media[1].at == Slot(1) && x == To(Put(w, 1, w.media[1].(at := In(0))), 2, Moved);
    assert Load(w, 2, x);
    h, who := RunMore(h, who, 2, x);
  }

  /** A second mount is let in beside the unmount of the first tape, counts on the drive,
      and is refused the record: one mount more is counted on drives than on media. */
  lemma {:induction false} MountClashes() returns (h: seq<Sys>, who: seq<nat>)
    ensures Run(h, who) && Clashes(h, who, |who|) > 0 && Between(h[|who|].ops) == 0
    ensures DriveMounts(h[|who|].drives) == 2 && MediumMounts(h[|who|].media) == 1
  {
    var x := Rival(true, OUT, BESIDE, 1, Done, Moved, Moved);
    var y := Rival(true, OUT, BESIDE, 2, Done, Moved, Counted);
    var z := Rival(true, OUT, BESIDE, 2, Done, Moved, Done);
    h, who := RivalBeside();
    assert CountDrive(x, 2, y);
    h, who := RunMore(h, who, 2, y);
    assert y.media[0].recorded == Some(0) && Clash(y, 2, z);
    h, who := RunMore(h, who, 2, z);
    assert Clash(h[|who| - 1], who[|who| - 1], h[|who|]);
    RivalCounts(z);
  }

  lemma {:induction false} RivalCounts(z: Sys)
    requires z == Rival(true, OUT, BESIDE, 2, Done, Moved, Done)
    ensures Between(z.ops) == 0 && DriveMounts(z.drives) == 2 && MediumMounts(z.media) == 1
  {
    assert z.drives[..0] == [] && z.media[..1] == [OUT] && [OUT][..0] == [];
    var a, b := z.ops[0], z.ops[1];
    assert z.ops[..2] == [a, b] && [a, b][..1] == [a] && [a][..0] == [];
    assert Between([a]) == 0;
    assert Between([a, b]) == 0;
  }
}
