/** One write to a file, logged, with a crash and a recovery at any point: on disk the file has either its old
    contents or the new ones. */
module FsCrash {
  import opened Blocks
  import opened Collections
  import opened Octets
  import opened FsSpec
  import opened FsLayout
  import opened FsSpace
  import opened FsTrunc
  import opened FsWrite
  import opened FsCode
  import F = FsFile
  import L = LogSpec
  import R = LogRefinement

  // ----- one operation in the log -----

  /** What the first n steps of the run have written, over the contents c. */
  ghost function Written(c: L.Contents, ss: seq<L.State>, acts: seq<L.Action>, n: nat): L.Contents
    requires n <= |acts| <= |ss|
  {
    if n == 0 then c
    else
      var w := Written(c, ss, acts, n - 1);
      match L.Effect(ss[n - 1], acts[n - 1])
      case AWrite(b, data) => w[b := data]
      case _ => w
  }

  ghost predicate Begun(acts: seq<L.Action>, n: nat)
    requires n <= |acts|
  {
    exists i: nat :: i < n && acts[i].BeginOp?
  }

  /** Only one operation runs, and by its end it has written exactly what turns c0 into c1. */
  ghost predicate OneOperation(c0: L.Contents, c1: L.Contents, ss: seq<L.State>, acts: seq<L.Action>) {
    && |acts| <= |ss|
    && (forall i: nat, j: nat :: i < j < |acts| && acts[i].BeginOp? ==> !acts[j].BeginOp?)
    && forall j: nat :: j < |acts| && acts[j].EndOp? ==> Written(c0, ss, acts, j) == c1
  }

  /** Not begun, running, ended, committed, or crashed before the commit. */
  ghost predicate Phase(a: L.Abs, c0: L.Contents, c1: L.Contents, w: L.Contents, begun: bool) {
    if !begun then a == L.Abs(c0, c0, 0) && w == c0
    else a == L.Abs(c0, w, 1) || (a == L.Abs(c0, w, 0) && w == c1) || a == L.Abs(c1, c1, 0) || a == L.Abs(c0, c0, 0)
  }

  lemma PhaseNext(a: L.Abs, act: L.AbsAction, a': L.Abs, c0: L.Contents, c1: L.Contents, w: L.Contents, w': L.Contents,
                  begun: bool, begun': bool)
    requires Phase(a, c0, c1, w, begun) && L.AbsNext(a, act, a')
    requires w' == if act.AWrite? then w[act.b := act.data] else w
    requires begun' == (begun || act.ABegin?) && (begun ==> !act.ABegin?) && (act.AEnd? ==> w == c1)
    ensures Phase(a', c0, c1, w', begun')
  {
  }

  lemma BegunNext(acts: seq<L.Action>, n: nat)
    requires n < |acts|
    ensures Begun(acts, n + 1) <==> Begun(acts, n) || acts[n].BeginOp?
  {
    if Begun(acts, n) {
      var i: nat :| i < n && acts[i].BeginOp?;
      assert i < n + 1;
    }
    if acts[n].BeginOp? { assert n < n + 1; }
  }

  lemma WrittenNext(c: L.Contents, ss: seq<L.State>, acts: seq<L.Action>, n: nat)
    requires n < |acts| <= |ss|
    ensures Written(c, ss, acts, 0) == c
    ensures var e := L.Effect(ss[n], acts[n]); var w := Written(c, ss, acts, n);
      Written(c, ss, acts, n + 1) == if e.AWrite? then w[e.b := e.data] else w
  {
  }

  lemma OperationParts(c0: L.Contents, c1: L.Contents, ss: seq<L.State>, acts: seq<L.Action>, n: nat)
    requires OneOperation(c0, c1, ss, acts) && n < |acts|
    ensures |acts| <= |ss| && (acts[n].EndOp? ==> Written(c0, ss, acts, n) == c1)
    ensures Begun(acts, n) ==> !acts[n].BeginOp?
  {
  }

  lemma NotBegun(acts: seq<L.Action>)
    ensures !Begun(acts, 0)
  {
  }

  /** The operation begins when no other one runs, and so its records find their slots, however small the log. */
  lemma AloneNext(g: L.Geometry, ss: seq<L.State>, acts: seq<L.Action>, c0: L.Contents, c1: L.Contents, n: nat)
    requires L.IsRun(g, ss, acts) && n < |acts| && |ss| == |acts| + 1 && L.Inv(g, ss[n]) && R.Lone(g, ss[n])
    requires OneOperation(c0, c1, ss, acts)
    requires Phase(L.Abstract(g, ss[n]), c0, c1, Written(c0, ss, acts, n), Begun(acts, n))
    ensures L.HasSlot(g, ss[n], acts[n]) && R.Lone(g, ss[n + 1])
  {
    OperationParts(c0, c1, ss, acts, n);
    assert L.Abstract(g, ss[n]).running == |ss[n].ops|;
    assert L.IsStep(g, ss[n], acts[n], ss[n + 1]);
    hide L.Inv, L.IsRun, L.Abstract, L.Enabled, L.Apply, L.HasSlot, R.Lone, Begun, Written, OneOperation;
    R.LoneNext(g, ss[n], acts[n]);
  }

  lemma EffectOf(s: L.State, a: L.Action)
    ensures L.Effect(s, a).ABegin? <==> a.BeginOp?
    ensures L.Effect(s, a).AEnd? <==> a.EndOp?
  {
  }

  lemma PhaseStep(g: L.Geometry, ss: seq<L.State>, acts: seq<L.Action>, c0: L.Contents, c1: L.Contents, n: nat)
    requires L.IsRun(g, ss, acts) && n < |acts| && |ss| == |acts| + 1 && L.Inv(g, ss[n])
    requires OneOperation(c0, c1, ss, acts) && L.HasSlot(g, ss[n], acts[n])
    requires Phase(L.Abstract(g, ss[n]), c0, c1, Written(c0, ss, acts, n), Begun(acts, n))
    ensures L.Inv(g, ss[n + 1])
    ensures Phase(L.Abstract(g, ss[n + 1]), c0, c1, Written(c0, ss, acts, n + 1), Begun(acts, n + 1))
  {
    hide L.Inv, L.IsRun, L.Abstract, L.AbsNext, L.Effect, L.HasSlot, Phase, Begun, Written, OneOperation;
    R.StepOfRun(g, ss, acts, n);
    BegunNext(acts, n);
    EffectOf(ss[n], acts[n]);
    WrittenNext(c0, ss, acts, n);
    OperationParts(c0, c1, ss, acts, n);
    PhaseNext(L.Abstract(g, ss[n]), L.Effect(ss[n], acts[n]), L.Abstract(g, ss[n + 1]), c0, c1,
              Written(c0, ss, acts, n), Written(c0, ss, acts, n + 1), Begun(acts, n), Begun(acts, n + 1));
  }

  lemma {:induction false} PhaseOf(g: L.Geometry, ss: seq<L.State>, acts: seq<L.Action>, c0: L.Contents, c1: L.Contents,
                                   n: nat)
    requires L.IsRun(g, ss, acts) && L.Inv(g, ss[0]) && R.Lone(g, ss[0]) && n < |ss| == |acts| + 1
    requires L.Abstract(g, ss[0]) == L.Abs(c0, c0, 0) && OneOperation(c0, c1, ss, acts)
    ensures L.Inv(g, ss[n]) && R.Lone(g, ss[n])
    ensures Phase(L.Abstract(g, ss[n]), c0, c1, Written(c0, ss, acts, n), Begun(acts, n))
  {
    hide L.Inv, L.IsRun, L.Abstract, L.HasSlot, R.Lone, Begun, OneOperation;
    if n == 0 {
      NotBegun(acts);
    } else {
      hide Phase, Written;
      PhaseOf(g, ss, acts, c0, c1, n - 1);
      AloneNext(g, ss, acts, c0, c1, n - 1);
      PhaseStep(g, ss, acts, c0, c1, n - 1);
    }
  }

  /** At every point of the run, whatever a recovery from there would leave on the disk is c0 or c1. */
  lemma AllOrNothing(g: L.Geometry, ss: seq<L.State>, acts: seq<L.Action>, c0: L.Contents, c1: L.Contents, n: nat)
    requires L.IsRun(g, ss, acts) && L.Inv(g, ss[0]) && R.Lone(g, ss[0]) && n < |ss|
    requires L.Abstract(g, ss[0]) == L.Abs(c0, c0, 0) && OneOperation(c0, c1, ss, acts)
    ensures L.Inv(g, ss[n])
    ensures L.Durable(g, ss[n].disk) == c0 || L.Durable(g, ss[n].disk) == c1
  {
    assert |ss| == |acts| + 1;
    hide L.Inv, L.IsRun, L.Durable, L.Current, R.Lone, OneOperation, Written, Begun;
    PhaseOf(g, ss, acts, c0, c1, n);
  }

  // ----- such an operation can always run -----

  /** The contents after these blocks have been written. */
  ghost function Put(c: L.Contents, data: map<nat, FBlk>, bs: seq<nat>): L.Contents
    requires forall b :: b in bs ==> b in data
  {
    if bs == [] then c else Put(c, data, bs[..|bs| - 1])[bs[|bs| - 1] := data[bs[|bs| - 1]]]
  }

  ghost function SetOf(bs: seq<nat>): (r: set<nat>)
    ensures |r| <= |bs| && forall b :: b in r <==> b in bs
  {
    if bs == [] then {} else SetOf(bs[..|bs| - 1]) + {bs[|bs| - 1]}
  }

  /** A run from s that has begun one operation, written w over c, and stands in e. */
  ghost predicate Running(g: L.Geometry, s: L.State, ss: seq<L.State>, acts: seq<L.Action>, c: L.Contents,
                          w: L.Contents, e: L.State) {
    && L.IsRun(g, ss, acts) && ss[0] == s && ss[|acts|] == e && acts != [] && acts[0].BeginOp?
    && (forall i :: 0 < i < |acts| ==> !acts[i].BeginOp? && !acts[i].EndOp?)
    && Written(c, ss, acts, |acts|) == w
  }

  /** The blocks bs have been logged. */
  ghost predicate Logged(e: L.State, bs: seq<nat>) {
    e.mode == L.Running && e.lh == bs && e.ops == [L.Op(SetOf(bs), L.Elsewhere)]
  }

  lemma {:induction false} WrittenBefore(c: L.Contents, ss: seq<L.State>, acts: seq<L.Action>, x: L.State, a: L.Action,
                                         n: nat)
    requires n <= |acts| < |ss|
    ensures Written(c, ss + [x], acts + [a], n) == Written(c, ss, acts, n)
  {
    if n > 0 { WrittenBefore(c, ss, acts, x, a, n - 1); }
  }

  /** One more step of a run. */
  lemma OneMore(g: L.Geometry, ss: seq<L.State>, acts: seq<L.Action>, c: L.Contents, a: L.Action)
    requires L.IsRun(g, ss, acts) && L.Enabled(g, ss[|acts|], a)
    ensures var x := L.Apply(g, ss[|acts|], a); var e := L.Effect(ss[|acts|], a); var w := Written(c, ss, acts, |acts|);
      && L.IsRun(g, ss + [x], acts + [a])
      && Written(c, ss + [x], acts + [a], |acts| + 1) == if e.AWrite? then w[e.b := e.data] else w
  {
    var x := L.Apply(g, ss[|acts|], a);
    WrittenBefore(c, ss, acts, x, a, |acts|);
    var ss', acts' := ss + [x], acts + [a];
    forall i | 0 <= i < |acts'|
      ensures L.IsStep(g, ss'[i], acts'[i], ss'[i + 1])
    {
      if i < |acts| { assert L.IsStep(g, ss[i], acts[i], ss[i + 1]); }
    }
    hide L.Enabled, L.Apply, L.Effect;
    WrittenNext(c, ss', acts', |acts|);
  }

  /** The log is idle and has slots enough, and the blocks are distinct home blocks, few enough for one operation. */
  ghost predicate Ready(g: L.Geometry, s: L.State, data: map<nat, FBlk>, bs: seq<nat>) {
    && s.mode == L.Running && s.lh == [] && s.ops == [] && |bs| < g.size && |bs| <= L.MAXOPBLOCKS && NoDup(bs)
    && forall b :: b in bs ==> b in data && L.Home(g, b)
  }

  lemma Go(g: L.Geometry, s: L.State, ss: seq<L.State>, acts: seq<L.Action>, c: L.Contents, w: L.Contents, e: L.State,
           a: L.Action)
    requires Running(g, s, ss, acts, c, w, e) && L.Enabled(g, e, a) && !a.BeginOp? && !a.EndOp?
    ensures var x := L.Effect(e, a);
      Running(g, s, ss + [L.Apply(g, e, a)], acts + [a], c, if x.AWrite? then w[x.b := x.data] else w, L.Apply(g, e, a))
  {
    hide L.Enabled, L.Apply, L.Effect, Written;
    OneMore(g, ss, acts, c, a);
  }

  lemma NewOne(bs: seq<nat>, k: nat)
    requires NoDup(bs) && k < |bs|
    ensures bs[k] !in bs[..k] && bs[..k + 1] == bs[..k] + [bs[k]] && bs[k] in bs
    ensures SetOf(bs[..k + 1]) == SetOf(bs[..k]) + {bs[k]} && |SetOf(bs[..k + 1])| <= k + 1
  {
    assert bs[..k + 1][..k] == bs[..k];
  }

  /** The two halves of log_write, one after the other. */
  lemma TestThenRecord(g: L.Geometry, e: L.State, b: nat, x: FBlk, done: set<nat>)
    requires e.mode == L.Running && e.ops == [L.Op(done, L.Elsewhere)] && |done + {b}| <= L.MAXOPBLOCKS && b !in e.lh
    requires |e.lh| < L.MAXOPBLOCKS && |e.lh| + 1 < g.size && L.Home(g, b)
    ensures L.Enabled(g, e, L.Test(0, b)) && L.Effect(e, L.Test(0, b)) == L.AStutter
    ensures var e1 := L.Apply(g, e, L.Test(0, b));
      && L.Enabled(g, e1, L.Record(0, x)) && L.Effect(e1, L.Record(0, x)) == L.AWrite(b, x)
      && var e2 := L.Apply(g, e1, L.Record(0, x));
         e2.mode == L.Running && e2.lh == e.lh + [b] && e2.ops == [L.Op(done + {b}, L.Elsewhere)]
  {
  }

  lemma LastWritten(c: L.Contents, data: map<nat, FBlk>, bs: seq<nat>, k: nat)
    requires k < |bs| && forall b :: b in bs ==> b in data
    ensures Put(c, data, bs[..k + 1]) == Put(c, data, bs[..k])[bs[k] := data[bs[k]]]
  {
    assert bs[..k + 1][..k] == bs[..k];
  }

  lemma LogNext(g: L.Geometry, s: L.State, ss: seq<L.State>, acts: seq<L.Action>, c: L.Contents,
                data: map<nat, FBlk>, bs: seq<nat>, k: nat, e: L.State)
    returns (ss': seq<L.State>, acts': seq<L.Action>, e': L.State)
    requires Ready(g, s, data, bs) && k < |bs|
    requires Logged(e, bs[..k]) && Running(g, s, ss, acts, c, Put(c, data, bs[..k]), e)
    ensures Logged(e', bs[..k + 1]) && Running(g, s, ss', acts', c, Put(c, data, bs[..k + 1]), e')
  {
    var b, w := bs[k], Put(c, data, bs[..k]);
    NewOne(bs, k);
    var a1, a2 := L.Test(0, b), L.Record(0, data[b]);
    TestThenRecord(g, e, b, data[b], SetOf(bs[..k]));
    LastWritten(c, data, bs, k);
    hide L.Enabled, L.Apply, L.Effect, Running, Put, SetOf;
    Go(g, s, ss, acts, c, w, e, a1);
    var e1 := L.Apply(g, e, a1);
    Go(g, s, ss + [e1], acts + [a1], c, w, e1, a2);
    e' := L.Apply(g, e1, a2);
    ss', acts' := ss + [e1] + [e'], acts + [a1] + [a2];
  }

  lemma {:induction false} LogSome(g: L.Geometry, s: L.State, c: L.Contents, data: map<nat, FBlk>, bs: seq<nat>, k: nat)
    returns (ss: seq<L.State>, acts: seq<L.Action>, e: L.State)
    requires Ready(g, s, data, bs) && k <= |bs|
    ensures Logged(e, bs[..k]) && Running(g, s, ss, acts, c, Put(c, data, bs[..k]), e)
  {
    if k == 0 {
      e := L.Apply(g, s, L.BeginOp);
      ss, acts := [s, e], [L.BeginOp];
      assert bs[..0] == [];
      assert L.IsStep(g, ss[0], acts[0], ss[1]);
      assert Written(c, ss, acts, 1) == Written(c, ss, acts, 0);
    } else {
      ss, acts, e := LogSome(g, s, c, data, bs, k - 1);
      ss, acts, e := LogNext(g, s, ss, acts, c, data, bs, k - 1, e);
    }
  }

  lemma RunSize(g: L.Geometry, ss: seq<L.State>, acts: seq<L.Action>)
    requires L.IsRun(g, ss, acts)
    ensures |ss| == |acts| + 1
  {
  }

  lemma Ends(g: L.Geometry, s: L.State, ss: seq<L.State>, acts: seq<L.Action>, c: L.Contents, w: L.Contents, e: L.State)
    returns (ss': seq<L.State>, acts': seq<L.Action>)
    requires Running(g, s, ss, acts, c, w, e) && L.Enabled(g, e, L.EndOp(0))
    ensures L.IsRun(g, ss', acts') && ss'[0] == s && OneOperation(c, w, ss', acts')
    ensures acts' != [] && acts'[|acts'| - 1].EndOp?
  {
    var a := L.EndOp(0);
    RunSize(g, ss, acts);
    hide L.Enabled, L.Apply, L.Effect, L.IsRun, Written;
    OneMore(g, ss, acts, c, a);
    WrittenBefore(c, ss, acts, L.Apply(g, e, a), a, |acts|);
    ss', acts' := ss + [L.Apply(g, e, a)], acts + [a];
    RunSize(g, ss', acts');
  }

  /** From an idle log an operation that writes these blocks runs to its end. */
  lemma OperationRuns(g: L.Geometry, s: L.State, c: L.Contents, data: map<nat, FBlk>, bs: seq<nat>)
    returns (ss: seq<L.State>, acts: seq<L.Action>)
    requires Ready(g, s, data, bs)
    ensures L.IsRun(g, ss, acts) && ss[0] == s && OneOperation(c, Put(c, data, bs), ss, acts)
    ensures acts != [] && acts[|acts| - 1].EndOp?
  {
    var e: L.State;
    ss, acts, e := LogSome(g, s, c, data, bs, |bs|);
    assert bs[..|bs|] == bs && L.Enabled(g, e, L.EndOp(0));
    hide Ready, Running, Put, SetOf, L.Apply, L.Enabled, L.IsRun, OneOperation;
    ss, acts := Ends(g, s, ss, acts, c, Put(c, data, bs), e);
  }

  // ----- one write to a file -----

  /** The contents c of the disk stand for the state v. */
  ghost predicate Stands(c: L.Contents, sb: Super, v: Volume) {
    AllSmall(v.dinodes) && forall b: nat :: sb.inodestart <= b < |v.fs.blocks| ==> b in c && c[b] == Img(sb, v, b)
  }

  /** The contents after all blocks of `logged` have been written as they are in v. */
  ghost function Overlaid(c: L.Contents, sb: Super, v: Volume, logged: set<nat>): L.Contents
    requires AllSmall(v.dinodes)
  {
    map b: int | b in c :: if b >= 0 && b in logged && sb.inodestart <= b < |v.fs.blocks| then Img(sb, v, b) else c[b]
  }

  lemma CoveredSizes(sb: Super, v: Volume, v': Volume, logged: set<nat>)
    requires Covered(sb, v, v', logged)
    ensures |v'.fs.blocks| == |v.fs.blocks| && v'.dinodes.Keys == v.dinodes.Keys
  {
  }

  lemma OverlaidStands(c: L.Contents, sb: Super, v: Volume, v': Volume, logged: set<nat>)
    requires Stands(c, sb, v) && Covered(sb, v, v', logged) && AllSmall(v'.dinodes) && sb.inodestart <= sb.bmapstart
    ensures Stands(Overlaid(c, sb, v', logged), sb, v')
  {
    var c' := Overlaid(c, sb, v', logged);
    hide Covered;
    CoveredSizes(sb, v, v', logged);
    forall b: nat | sb.inodestart <= b < |v.fs.blocks|
      ensures b in c' && c'[b] == Img(sb, v', b)
    {
      if b !in logged { CoveredImg(sb, v, v', logged, b); }
      hide Img;
    }
  }

  /** The machine runs on a disk that stands for v, and the log is idle. */
  ghost predicate Quiet(g: L.Geometry, s: L.State, c: L.Contents, sb: Super, v: Volume) {
    L.Inv(g, s) && R.Lone(g, s) && L.Abstract(g, s) == L.Abs(c, c, 0) && Stands(c, sb, v)
  }

  /** Whenever one operation turns v into v' and logs these blocks, then at every point of every run, crashes and
      recoveries included, the disk stands for v or for v' once a recovery from there is over. */
  ghost predicate CrashSafe(g: L.Geometry, sb: Super, v: Volume, v': Volume, logged: set<nat>)
    requires AllSmall(v'.dinodes)
  {
    forall c: L.Contents, ss: seq<L.State>, acts: seq<L.Action>, n: nat ::
      L.IsRun(g, ss, acts) && n < |ss| && Quiet(g, ss[0], c, sb, v)
      && OneOperation(c, Overlaid(c, sb, v', logged), ss, acts) ==>
        L.GoodDisk(g, ss[n].disk)
        && (Stands(L.Durable(g, ss[n].disk), sb, v) || Stands(L.Durable(g, ss[n].disk), sb, v'))
  }

  lemma CoveredSafe(g: L.Geometry, sb: Super, v: Volume, v': Volume, logged: set<nat>)
    requires Covered(sb, v, v', logged) && AllSmall(v'.dinodes) && sb.inodestart <= sb.bmapstart
    ensures CrashSafe(g, sb, v, v', logged)
  {
    forall c: L.Contents, ss: seq<L.State>, acts: seq<L.Action>, n: nat
      | L.IsRun(g, ss, acts) && n < |ss| && Quiet(g, ss[0], c, sb, v)
                                 && OneOperation(c, Overlaid(c, sb, v', logged), ss, acts)
      ensures L.GoodDisk(g, ss[n].disk)
      ensures Stands(L.Durable(g, ss[n].disk), sb, v) || Stands(L.Durable(g, ss[n].disk), sb, v')
    {
      AllOrNothing(g, ss, acts, c, Overlaid(c, sb, v', logged), n);
      OverlaidStands(c, sb, v, v', logged);
    }
  }

  /** The inodes in memory are those on disk. */
  ghost predicate Synced(v: Volume) {
    InSync(v.fs.inodes, v.dinodes) && v.fs.inodes.Keys == v.dinodes.Keys
  }

  lemma SameContent(v: Volume, v': Volume, nmeta: nat, i: nat)
    requires Synced(v) && Synced(v') && v'.dinodes == v.dinodes && i in v.fs.inodes && |v'.fs.blocks| == |v.fs.blocks|
    requires Ownership(v.fs, nmeta) && Ownership(v'.fs, nmeta) && v'.fs.blocks[nmeta..] == v.fs.blocks[nmeta..]
    ensures i in v'.fs.inodes && Content(v'.fs, i) == Content(v.fs, i)
  {
    assert OnDisk(v'.fs.inodes[i]) == OnDisk(v.fs.inodes[i]);
    forall b: nat | nmeta <= b < |v.fs.blocks|
      ensures v'.fs.blocks[b] == v.fs.blocks[b]
    {
      assert v'.fs.blocks[nmeta..][b - nmeta] == v.fs.blocks[nmeta..][b - nmeta];
    }
    assert At(v.fs, Place(i, 12)) == v.fs.inodes[i].addrs[12];
    forall n: nat | n < SLOTS
      ensures At(v'.fs, Place(i, n)) == At(v.fs, Place(i, n))
    {
    }
    forall j: nat | j < v.fs.inodes[i].size
      ensures ByteAt(v'.fs, i, j) == ByteAt(v.fs, i, j)
    {
      var p := Place(i, DataSlot(j / BSIZE));
      assert At(v'.fs, p) == At(v.fs, p);
    }
  }

  /** Any two states with these bytes have the same files. */
  lemma SameFiles(c: L.Contents, sb: Super, v: Volume, v': Volume, ninodes: nat)
    requires Stands(c, sb, v) && Stands(c, sb, v') && Laid(sb, v, ninodes) && Laid(sb, v', ninodes)
    requires |v'.fs.blocks| == |v.fs.blocks| && Synced(v) && Synced(v')
    requires Ownership(v.fs, sb.nmeta) && Ownership(v'.fs, sb.nmeta)
    ensures v'.fs.inodes.Keys == v.fs.inodes.Keys
    ensures forall i :: i in v.fs.inodes ==> Content(v'.fs, i) == Content(v.fs, i)
  {
    assert SameBytes(sb, v, v');
    OneMeaning(sb, v, v', ninodes);
    hide SameBytes, Stands, Laid;
    forall i | i in v.fs.inodes
      ensures Content(v'.fs, i) == Content(v.fs, i)
    {
      SameContent(v, v', sb.nmeta, i);
    }
  }

  lemma CoveredMaps(sb: Super, v: Volume, v': Volume, logged: set<nat>)
    requires Covered(sb, v, v', logged)
    ensures |v'.fs.bitmap| == |v.fs.bitmap|
  {
  }

  /** After the write every inode still fits its place on disk. */
  lemma StillLaid(sb: Super, v: Volume, v': Volume, ninodes: nat, i: nat, logged: set<nat>)
    requires Laid(sb, v, ninodes) && Synced(v) && Covered(sb, v, v', logged) && InSync(v'.fs.inodes, v'.dinodes)
    requires i in v.fs.inodes && i in v'.fs.inodes && v'.fs.inodes == v.fs.inodes[i := v'.fs.inodes[i]]
    requires v'.fs.inodes[i] == v.fs.inodes[i].(size := v'.fs.inodes[i].size, addrs := v'.fs.inodes[i].addrs)
    requires Inv(v'.fs, sb.nmeta)
    ensures Laid(sb, v', ninodes) && Synced(v')
  {
    hide Covered, BBlock, IBlock;
    CoveredSizes(sb, v, v', logged);
    CoveredMaps(sb, v, v', logged);
    forall k | k in v'.dinodes
      ensures Small(v'.dinodes[k])
    {
      assert k in v.fs.inodes && v'.dinodes[k] == OnDisk(v'.fs.inodes[k]);
      if k == i { assert Mapped(v'.fs, i); } else { assert v'.dinodes[k] == v.dinodes[k]; }
    }
  }

  lemma SyncedParts(v: Volume)
    requires Synced(v)
    ensures InSync(v.fs.inodes, v.dinodes)
  {
  }

  lemma ReplacedInv(s: Fs, s': Fs, nmeta: nat, i: nat, off: nat, d: seq<byte>)
    requires Sized(s) && i in s.inodes && off <= s.inodes[i].size && Replaced(s, s', nmeta, i, off, d)
    ensures Inv(s', nmeta)
  {
    hide Inv, Sized;
  }

  lemma ChunkSafe(g: L.Geometry, sb: Super, v: Volume, v': Volume, ninodes: nat, i: nat, logged: set<nat>)
    requires Laid(sb, v, ninodes) && Synced(v) && Covered(sb, v, v', logged) && InSync(v'.fs.inodes, v'.dinodes)
    requires i in v.fs.inodes && i in v'.fs.inodes && v'.fs.inodes == v.fs.inodes[i := v'.fs.inodes[i]]
    requires v'.fs.inodes[i] == v.fs.inodes[i].(size := v'.fs.inodes[i].size, addrs := v'.fs.inodes[i].addrs)
    requires Inv(v'.fs, sb.nmeta)
    ensures Laid(sb, v', ninodes) && Synced(v') && AllSmall(v'.dinodes) && CrashSafe(g, sb, v, v', logged)
  {
    hide Inv, Covered, CrashSafe, InSync, Small;
    StillLaid(sb, v, v', ninodes, i, logged);
    CoveredSafe(g, sb, v, v', logged);
  }

  /** writei of one chunk as an operation of its own.  What it leaves behind is the old contents of the file with
      the range replaced, and wherever the machine stops and recovers on the way, the disk stands for the state
      before or for the state after. */
  method WriteChunk(fs: FileSystem, i: nat, off: nat, src: seq<byte>, ghost g: L.Geometry, ghost ninodes: nat)
    returns (res: IoResult)
    requires Inv(fs.View(), fs.sb.nmeta) && i in fs.inodes && off < UINT && |src| <= MAXWRITE
    requires Laid(fs.sb, fs.Vol(), ninodes) && Synced(fs.Vol())
    modifies fs
    ensures res == Failed ==> fs.View() == old(fs.View()) && fs.dinodes == old(fs.dinodes)
    ensures res.Moved? ==> res.n == |src| && off <= old(fs.inodes[i].size)
    ensures res.Moved? ==> Replaced(old(fs.View()), fs.View(), fs.sb.nmeta, i, off, src)
    ensures res.Moved? ==> Laid(fs.sb, fs.Vol(), ninodes) && Synced(fs.Vol()) && |fs.logged| <= MAXOPBLOCKS
    ensures res.Moved? ==> AllSmall(fs.dinodes) && CrashSafe(g, fs.sb, old(fs.Vol()), fs.Vol(), fs.logged)
    ensures fs.ops == old(fs.ops) + [fs.logged]
  {
    hide Inv, Replaced, Content, Covered, CrashSafe, Laid, InSync, AllSmall, Need, SlotsFor, FreeBlocks, Filled, Sized;
    SyncedParts(fs.Vol());
    InvParts(fs.View(), fs.sb.nmeta);
    ghost var v := fs.Vol();
    fs.BeginOp();
    res := fs.Writei(i, off, src);
    ghost var did := fs.logged;
    fs.EndOp();
    if res.Moved? {
      assert did - {} == did;
      ReplacedInv(v.fs, fs.View(), fs.sb.nmeta, i, off, src);
      ChunkSafe(g, fs.sb, v, fs.Vol(), ninodes, i, did);
    }
  }

  lemma {:induction false} ChunksSafe(g: L.Geometry, sb: Super, ip: nat, vols: seq<Volume>, ops: seq<set<nat>>,
                                      ninodes: nat, k: nat)
    requires F.ChunkOps(sb, ip, vols, ops) && k <= |ops| && Laid(sb, vols[0], ninodes) && Synced(vols[0])
    ensures Laid(sb, vols[k], ninodes) && Synced(vols[k])
    ensures k > 0 ==> AllSmall(vols[k].dinodes) && CrashSafe(g, sb, vols[k - 1], vols[k], ops[k - 1])
  {
    if k > 0 {
      assert F.ChunkOp(sb, ip, vols[k - 1], vols[k], ops[k - 1]);
      hide Laid, Synced, Covered, CrashSafe, AllSmall, InSync, Inv;
      ChunksSafe(g, sb, ip, vols, ops, ninodes, k - 1);
      ChunkSafe(g, sb, vols[k - 1], vols[k], ninodes, ip, ops[k - 1]);
    }
  }

  ghost predicate OpSafe(g: L.Geometry, sb: Super, vols: seq<Volume>, ops: seq<set<nat>>, k: nat) {
    && k < |ops| == |vols| - 1 && AllSmall(vols[k + 1].dinodes)
    && CrashSafe(g, sb, vols[k], vols[k + 1], ops[k])
  }

  /** Each operation is safe against crashes. */
  ghost predicate AllSafe(g: L.Geometry, sb: Super, vols: seq<Volume>, ops: seq<set<nat>>) {
    |vols| == |ops| + 1 && forall k: nat :: k < |ops| ==> OpSafe(g, sb, vols, ops, k)
  }

  lemma AllChunksSafe(g: L.Geometry, sb: Super, ip: nat, vols: seq<Volume>, ops: seq<set<nat>>, ninodes: nat)
    requires F.ChunkOps(sb, ip, vols, ops) && Laid(sb, vols[0], ninodes) && Synced(vols[0])
    ensures AllSafe(g, sb, vols, ops) && Laid(sb, vols[|ops|], ninodes) && Synced(vols[|ops|])
  {
    hide Laid, Synced, CrashSafe, AllSmall;
    assert |vols| == |ops| + 1;
    ChunksSafe(g, sb, ip, vols, ops, ninodes, |ops|);
    forall k: nat | k < |ops|
      ensures OpSafe(g, sb, vols, ops, k)
    {
      ChunksSafe(g, sb, ip, vols, ops, ninodes, k + 1);
    }
  }

  lemma OpsCount(sb: Super, ip: nat, vols: seq<Volume>, ops: seq<set<nat>>)
    requires F.ChunkOps(sb, ip, vols, ops)
    ensures |vols| == |ops| + 1
  {
  }

  /** A whole filewrite.  Wherever the machine stops, the disk stands for one of the states between two chunks: the
      old contents with the bytes of the first so many chunks written over them. */
  method WriteFile(file: F.OpenFile, fs: FileSystem, src: seq<byte>, n: int, ghost g: L.Geometry, ghost ninodes: nat)
    returns (res: IoResult, ghost vols: seq<Volume>)
    requires Inv(fs.View(), fs.sb.nmeta) && file.ip in fs.inodes && file.off < UINT
    requires Laid(fs.sb, fs.Vol(), ninodes) && Synced(fs.Vol()) && |src| == if n < 0 then 0 else n
    modifies file`off, fs
    ensures |vols| > 0 && vols[0] == old(fs.Vol()) && (res != Panic ==> vols[|vols| - 1] == fs.Vol())
    ensures |fs.ops| >= |old(fs.ops)| && fs.ops[..|old(fs.ops)|] == old(fs.ops)
    ensures AllSafe(g, fs.sb, vols, fs.ops[|old(fs.ops)|..])
    ensures res != Panic ==> Laid(fs.sb, fs.Vol(), ninodes) && Synced(fs.Vol())
    ensures res.Moved? && old(file.off <= fs.inodes[file.ip].size) ==>
              Sized(old(fs.View())) && res.n == |src|
              && F.ChunkStates(old(fs.View()), vols, fs.sb.nmeta, file.ip, old(file.off), src, |src|)
  {
    hide Inv, Laid, InSync, AllSafe, F.ChunkOps, F.ChunkStates, F.Reached, Replaced, Filled, Need, FreeBlocks, SlotsFor;
    SyncedParts(fs.Vol());
    InvParts(fs.View(), fs.sb.nmeta);
    res, vols := file.FileWrite(fs, src, n);
    OpsCount(fs.sb, file.ip, vols, fs.ops[|old(fs.ops)|..]);
    AllChunksSafe(g, fs.sb, file.ip, vols, fs.ops[|old(fs.ops)|..], ninodes);
  }

  /** An inode that has just been freed, or lost a reference, fits its place on disk. */
  lemma PutLaid(sb: Super, v: Volume, v': Volume, ninodes: nat, i: nat)
    requires Laid(sb, v, ninodes) && Synced(v) && Inv(v'.fs, sb.nmeta) && i in v.fs.inodes && Sized(v.fs)
    requires InSync(v'.fs.inodes, v'.dinodes) && v'.dinodes.Keys == v.dinodes.Keys
    requires v.fs.inodes[i].ref > 0
    requires Freed(v.fs, v'.fs, sb.nmeta, i) || (v'.fs == DropRef(v.fs, i) && v'.dinodes == v.dinodes)
    ensures Laid(sb, v', ninodes) && Synced(v') && AllSmall(v'.dinodes)
  {
    hide BBlock, IBlock, OwnedBy, Content;
    forall k | k in v'.dinodes
      ensures Small(v'.dinodes[k])
    {
      assert k in v.fs.inodes && v'.dinodes[k] == OnDisk(v'.fs.inodes[k]) && v.dinodes[k] == OnDisk(v.fs.inodes[k]);
      if k != i { assert v'.fs.inodes[k] == v.fs.inodes[k]; }
    }
  }

  lemma InodeOnDisk(v: Volume, i: nat)
    requires Synced(v) && i in v.fs.inodes
    ensures i in v.dinodes
  {
  }

  lemma PutParts(sb: Super, v: Volume, v': Volume, logged: set<nat>)
    requires Covered(sb, v, v', logged)
    ensures v'.dinodes.Keys == v.dinodes.Keys && |v'.fs.blocks| == |v.fs.blocks|
  {
  }

  lemma LaidOrder(sb: Super, v: Volume, ninodes: nat)
    requires Laid(sb, v, ninodes)
    ensures sb.inodestart <= sb.bmapstart
  {
  }

  /** iput as an operation of its own: wherever the machine stops and recovers on the way, the disk stands for the
      state before or for the state after, so an unlinked file is there with all its blocks or gone with all of
      them.  The blocks it logs are few enough for one operation on a disk of up to nine bitmap blocks. */
  method PutInode(fs: FileSystem, i: nat, ghost g: L.Geometry, ghost ninodes: nat)
    requires Inv(fs.View(), fs.sb.nmeta) && i in fs.inodes && fs.inodes[i].ref > 0
    requires Laid(fs.sb, fs.Vol(), ninodes) && Synced(fs.Vol())
    modifies fs
    ensures old(i in fs.valid && fs.inodes[i].nlink == 0 && fs.inodes[i].ref == 1) ==>
              Freed(old(fs.View()), fs.View(), fs.sb.nmeta, i)
    ensures Inv(fs.View(), fs.sb.nmeta) && Laid(fs.sb, fs.Vol(), ninodes) && Synced(fs.Vol()) && AllSmall(fs.dinodes)
    ensures CrashSafe(g, fs.sb, old(fs.Vol()), fs.Vol(), fs.logged)
    ensures |fs.blocks| <= (MAXOPBLOCKS - 1) * BPB ==> |fs.logged| <= MAXOPBLOCKS
    ensures fs.ops == old(fs.ops) + [fs.logged]
  {
    hide Inv, Covered, CrashSafe, Laid, InSync, AllSmall, Freed, DropRef, MapItems, OwnedBy, Content, IBlock;
    SyncedParts(fs.Vol());
    InvParts(fs.View(), fs.sb.nmeta);
    ghost var v := fs.Vol();
    InodeOnDisk(v, i);
    fs.BeginOp();
    fs.Iput(i);
    ghost var did := fs.logged;
    fs.EndOp();
    assert did - {} == did;
    PutParts(fs.sb, v, fs.Vol(), did);
    PutLaid(fs.sb, v, fs.Vol(), ninodes, i);
    LaidOrder(fs.sb, v, ninodes);
    CoveredSafe(g, fs.sb, v, fs.Vol(), did);
  }

  // ----- the operation exists -----

  lemma {:induction false} Listed(x: set<nat>) returns (bs: seq<nat>)
    ensures NoDup(bs) && |bs| == |x| && forall b :: b in bs <==> b in x
  {
    if x == {} {
      bs := [];
    } else {
      var b :| b in x;
      var rest := Listed(x - {b});
      bs := rest + [b];
    }
  }

  lemma {:induction false} PutIs(c: L.Contents, data: map<nat, FBlk>, bs: seq<nat>)
    requires forall b :: b in bs ==> b in data && b in c
    ensures Put(c, data, bs).Keys == c.Keys
    ensures forall b: int :: b in c ==> Put(c, data, bs)[b] == if b >= 0 && b in bs then data[b] else c[b]
  {
    if bs != [] {
      var n := |bs| - 1;
      PutIs(c, data, bs[..n]);
      assert bs == bs[..n] + [bs[n]];
    }
  }

  lemma OverlaidIs(c: L.Contents, sb: Super, v: Volume, logged: set<nat>, data: map<nat, FBlk>, bs: seq<nat>)
    requires AllSmall(v.dinodes)
    requires forall b :: b in bs <==> b in logged && sb.inodestart <= b < |v.fs.blocks| && b in c
    requires forall b :: b in bs ==> b in data && data[b] == Img(sb, v, b)
    ensures Put(c, data, bs) == Overlaid(c, sb, v, logged)
  {
    PutIs(c, data, bs);
    hide Img, AllSmall, Put;
    var p, o := Put(c, data, bs), Overlaid(c, sb, v, logged);
    assert p.Keys == o.Keys;
    forall b: int | b in c
      ensures p[b] == o[b]
    {
    }
  }

  /** From an idle log an operation that logs these blocks, as they are in v, runs to its end. */
  lemma SaveRuns(g: L.Geometry, s: L.State, c: L.Contents, sb: Super, v: Volume, logged: set<nat>)
    returns (ss: seq<L.State>, acts: seq<L.Action>)
    requires s.mode == L.Running && s.lh == [] && s.ops == [] && |logged| < g.size && |logged| <= L.MAXOPBLOCKS
    requires AllSmall(v.dinodes) && forall b: int :: b in c <==> L.Home(g, b)
    ensures L.IsRun(g, ss, acts) && ss[0] == s && OneOperation(c, Overlaid(c, sb, v, logged), ss, acts)
    ensures acts != [] && acts[|acts| - 1].EndOp?
  {
    var mine := set b | b in logged && sb.inodestart <= b < |v.fs.blocks| && b in c;
    SubsetSize(mine, logged);
    var bs := Listed(mine);
    var data := map b: nat | b in mine :: Img(sb, v, b);
    OverlaidIs(c, sb, v, logged, data, bs);
    assert Ready(g, s, data, bs);
    hide Put, Overlaid, OneOperation, L.IsRun, Img, AllSmall, Ready;
    ss, acts := OperationRuns(g, s, c, data, bs);
  }
}
