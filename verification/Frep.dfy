/** The trace annotator's emulation of the FPU sequencer: offloaded instructions and FREP configurations arrive in two
    queues, and every issue of the floating-point unit is attributed to the instruction that the unrolled loops would
    execute next. */
module Frep {
  import opened Wrappers

  type Pc = string

  /** An instruction offloaded by the core, with the performance section it was offloaded in. */
  datatype Offload = Offload(pc: Pc, section: nat, isFrep: bool)

  /** An FREP configuration and the PC of the FREP it belongs to. */
  datatype Config = Config(maxInst: nat, maxRpt: nat, isOuter: bool, pc: Pc)

  /** An instruction of a loop body with its iteration and its index in the body. */
  datatype Entry = Entry(pc: Pc, section: nat, rep: nat, inst: nat)

  /** What one issue is attributed to; `frep` and `annot` are there for issues out of a loop. */
  datatype Issue = Issue(pc: Pc, section: nat, frep: Option<Pc>, annot: Option<(nat, nat)>)

  datatype Error = QueueEmpty | NestedFrep
  datatype Result<T> = Ok(value: T) | Err(error: Error)

  // ----- the unrolled stream

  function Tagged(o: Offload, rep: nat, inst: nat): Entry { Entry(o.pc, o.section, rep, inst) }

  /** One iteration of a loop body. */
  function Pass(body: seq<Offload>, rep: nat): (r: seq<Entry>)
    ensures |r| == |body|
  {
    seq(|body|, i requires 0 <= i < |body| => Tagged(body[i], rep, i))
  }

  /** One instruction, repeated. */
  function Copies(o: Offload, inst: nat, n: nat): (r: seq<Entry>)
    ensures |r| == n
  {
    seq(n, i requires 0 <= i < n => Tagged(o, i, inst))
  }

  /** Outer loops repeat the body. */
  function OuterLoop(body: seq<Offload>, reps: nat): seq<Entry> {
    if reps == 0 then [] else OuterLoop(body, reps - 1) + Pass(body, reps - 1)
  }

  /** Inner loops repeat every instruction of the body. */
  function InnerLoop(body: seq<Offload>, reps: nat): seq<Entry> {
    if body == [] then []
    else InnerLoop(body[..|body| - 1], reps) + Copies(body[|body| - 1], |body| - 1, reps)
  }

  /** What can be issued of a loop whose body has arrived as far as `body`: an outer loop can only repeat a whole body. */
  function Loop(cfg: Config, body: seq<Offload>): seq<Entry> {
    if !cfg.isOuter then InnerLoop(body, cfg.maxRpt + 1)
    else if |body| == cfg.maxInst + 1 then OuterLoop(body, cfg.maxRpt + 1)
    else Pass(body, 0)
  }

  function Out(cfg: Config, e: Entry): Issue { Issue(e.pc, e.section, Some(cfg.pc), Some((e.rep, e.inst))) }

  function Outs(cfg: Config, s: seq<Entry>): (r: seq<Issue>)
    ensures |r| == |s| && forall i :: 0 <= i < |s| ==> r[i] == Out(cfg, s[i])
  {
    seq(|s|, i requires 0 <= i < |s| => Out(cfg, s[i]))
  }

  /** The issues of a stream of offloads with the configurations of its FREPs, as far as both have arrived. */
  function Unroll(offs: seq<Offload>, cfgs: seq<Config>): seq<Issue>
    decreases |offs|
  {
    if offs == [] then []
    else if !offs[0].isFrep then [Plain(offs[0])] + Unroll(offs[1..], cfgs)
    else if cfgs == [] then []
    else
      var n := cfgs[0].maxInst + 1;
      if |offs| <= n then Outs(cfgs[0], Loop(cfgs[0], offs[1..]))
      else Outs(cfgs[0], Loop(cfgs[0], offs[1..n + 1])) + Unroll(offs[n + 1..], cfgs[1..])
  }

  /** offs is a whole number of plain instructions and complete loops, which use up exactly cfgs. */
  predicate Closed(offs: seq<Offload>, cfgs: seq<Config>)
    decreases |offs|
  {
    if offs == [] then cfgs == []
    else if !offs[0].isFrep then Closed(offs[1..], cfgs)
    else
      && cfgs != [] && |offs| > cfgs[0].maxInst + 1
      && Closed(offs[cfgs[0].maxInst + 2..], cfgs[1..])
  }

  function Plain(o: Offload): Issue { Issue(o.pc, o.section, None, None) }

  lemma {:induction false} UnrollPlain(offs: seq<Offload>, cfgs: seq<Config>)
    requires offs != [] && !offs[0].isFrep
    ensures Unroll(offs, cfgs) == [Plain(offs[0])] + Unroll(offs[1..], cfgs)
  {}

  lemma {:induction false} UnrollAppend(a: seq<Offload>, ca: seq<Config>, b: seq<Offload>, cb: seq<Config>)
    requires Closed(a, ca)
    ensures Unroll(a + b, ca + cb) == Unroll(a, ca) + Unroll(b, cb)
    decreases |a|
  {
    if a == [] {
      assert a + b == b && ca + cb == cb;
    } else if !a[0].isFrep {
      UnrollAppend(a[1..], ca, b, cb);
      PlainAppend(a, ca, b, cb);
    } else {
      UnrollAppend(Behind(a, ca), ca[1..], b, cb);
      LoopAppend(a, ca, b, cb);
    }
  }

  lemma {:induction false} PlainAppend(a: seq<Offload>, ca: seq<Config>, b: seq<Offload>, cb: seq<Config>)
    requires a != [] && !a[0].isFrep && Unroll(a[1..] + b, ca + cb) == Unroll(a[1..], ca) + Unroll(b, cb)
    ensures Unroll(a + b, ca + cb) == Unroll(a, ca) + Unroll(b, cb)
  {
    assert (a + b)[1..] == a[1..] + b;
    UnrollPlain(a, ca);
    UnrollPlain(a + b, ca + cb);
    Behead(Unroll(a + b, ca + cb), Unroll(a, ca), [Plain(a[0])], Unroll(a[1..], ca), Unroll(b, cb));
  }

  lemma Assoc<T>(x: seq<T>, y: seq<T>, z: seq<T>)
    ensures x + (y + z) == (x + y) + z
  {}

  lemma Behead<T>(whole: seq<T>, part: seq<T>, h: seq<T>, u: seq<T>, v: seq<T>)
    requires whole == h + (u + v) && part == h + u
    ensures whole == part + v
  {}

  lemma {:induction false} LoopAppend(a: seq<Offload>, ca: seq<Config>, b: seq<Offload>, cb: seq<Config>)
    requires LoopFirst(a, ca) && Unroll(Behind(a, ca) + b, ca[1..] + cb) == Unroll(Behind(a, ca), ca[1..]) + Unroll(b, cb)
    ensures Unroll(a + b, ca + cb) == Unroll(a, ca) + Unroll(b, cb)
  {
    HeadAppend(a, ca, b, cb);
    UnrollLoop(a, ca);
    UnrollLoop(a + b, ca + cb);
    Behead(Unroll(a + b, ca + cb), Unroll(a, ca), Head(a, ca), Unroll(Behind(a, ca), ca[1..]), Unroll(b, cb));
  }

  /** The stream starts with a complete loop. */
  predicate LoopFirst(offs: seq<Offload>, cfgs: seq<Config>) {
    offs != [] && offs[0].isFrep && cfgs != [] && |offs| > cfgs[0].maxInst + 1
  }

  /** That loop unrolled, and the stream behind it. */
  function Head(offs: seq<Offload>, cfgs: seq<Config>): seq<Issue>
    requires LoopFirst(offs, cfgs)
  {
    Outs(cfgs[0], Loop(cfgs[0], offs[1..cfgs[0].maxInst + 2]))
  }

  function Behind(offs: seq<Offload>, cfgs: seq<Config>): seq<Offload>
    requires LoopFirst(offs, cfgs)
  {
    offs[cfgs[0].maxInst + 2..]
  }

  lemma {:induction false} UnrollLoop(offs: seq<Offload>, cfgs: seq<Config>)
    requires LoopFirst(offs, cfgs)
    ensures Unroll(offs, cfgs) == Head(offs, cfgs) + Unroll(Behind(offs, cfgs), cfgs[1..])
  {}

  lemma HeadAppend(a: seq<Offload>, ca: seq<Config>, b: seq<Offload>, cb: seq<Config>)
    requires LoopFirst(a, ca)
    ensures LoopFirst(a + b, ca + cb) && Head(a + b, ca + cb) == Head(a, ca)
    ensures Behind(a + b, ca + cb) == Behind(a, ca) + b && (ca + cb)[1..] == ca[1..] + cb
  {
    var n := ca[0].maxInst + 2;
    assert (a + b)[1..n] == a[1..n];
  }

  lemma {:induction false} ClosedAppend(a: seq<Offload>, ca: seq<Config>, b: seq<Offload>, cb: seq<Config>)
    requires Closed(a, ca) && Closed(b, cb)
    ensures Closed(a + b, ca + cb)
    decreases |a|
  {
    if a == [] {
      assert a + b == b && ca + cb == cb;
    } else if !a[0].isFrep {
      assert (a + b)[1..] == a[1..] + b;
      ClosedAppend(a[1..], ca, b, cb);
    } else {
      var n := ca[0].maxInst + 1;
      assert (a + b)[n + 1..] == a[n + 1..] + b && (ca + cb)[1..] == ca[1..] + cb;
      ClosedAppend(a[n + 1..], ca[1..], b, cb);
    }
  }

  /** More of the body only adds issues. */
  lemma {:induction false} LoopGrows(cfg: Config, body: seq<Offload>, more: seq<Offload>)
    requires |body| + |more| <= cfg.maxInst + 1
    ensures Loop(cfg, body) <= Loop(cfg, body + more)
    decreases |more|
  {
    if more == [] {
      assert body + more == body;
    } else {
      var b := body + [more[0]];
      assert b + more[1..] == body + more;
      LoopGrows(cfg, b, more[1..]);
      assert b[..|b| - 1] == body;
      if cfg.isOuter {
        assert Pass(body, 0) <= Pass(b, 0);
        if |b| == cfg.maxInst + 1 { OuterStart(b, cfg.maxRpt + 1); }
      }
    }
  }

  lemma {:induction false} OuterStart(body: seq<Offload>, reps: nat)
    requires reps > 0
    ensures Pass(body, 0) <= OuterLoop(body, reps)
  {
    if reps <= 1 {
    } else {
      OuterStart(body, reps - 1);
    }
  }

  // ----- the PCs of the loops

  /** The PCs of the FREPs offloaded, in order. */
  function FrepPcs(offs: seq<Offload>): seq<Pc> {
    if offs == [] then []
    else FrepPcs(offs[..|offs| - 1]) + (if offs[|offs| - 1].isFrep then [offs[|offs| - 1].pc] else [])
  }

  function Pcs(cfgs: seq<Config>): (r: seq<Pc>)
    ensures |r| == |cfgs| && forall i :: 0 <= i < |cfgs| ==> r[i] == cfgs[i].pc
  {
    seq(|cfgs|, i requires 0 <= i < |cfgs| => cfgs[i].pc)
  }

  // ----- loop bodies, instruction by instruction

  /** The loop being worked on: how much of its body has come, the entries ready to issue, and one copy of an outer body. */
  datatype Running = Running(cfg: Config, filled: nat, buf: seq<Entry>, outer: seq<Entry>)

  /** Where the emulation of a loop stands: `sofar` has been issued and the buffer is ready. */
  predicate InLoop(c: Running, loop: seq<Offload>, sofar: seq<Entry>) {
    && loop != [] && loop[0].isFrep && c.filled == |loop| - 1 <= c.cfg.maxInst + 1
    && sofar + c.buf == Loop(c.cfg, loop[1..])
    && (c.cfg.isOuter ==> c.outer == Pass(loop[1..], 0))
    && (c.filled == c.cfg.maxInst + 1 ==> c.buf != [])
  }

  /** The entry with the last iteration and the last index is the last one of the whole loop, and no other. */
  lemma LastOnly(cfg: Config, body: seq<Offload>, j: nat)
    requires |body| <= cfg.maxInst + 1 && j < |Loop(cfg, body)|
    ensures var e := Loop(cfg, body)[j];
            (e.rep == cfg.maxRpt && e.inst == cfg.maxInst) <==> |body| == cfg.maxInst + 1 && j == |Loop(cfg, body)| - 1
  {
    if !cfg.isOuter {
      InnerLast(body, cfg.maxRpt + 1, j);
    } else if |body| == cfg.maxInst + 1 {
      OuterLast(body, cfg.maxRpt + 1, j);
    }
  }

  lemma {:induction false} OuterLast(body: seq<Offload>, reps: nat, j: nat)
    requires body != [] && j < |OuterLoop(body, reps)|
    ensures OuterLoop(body, reps)[j].rep < reps && OuterLoop(body, reps)[j].inst < |body|
    ensures (OuterLoop(body, reps)[j].rep == reps - 1 && OuterLoop(body, reps)[j].inst == |body| - 1)
            <==> j == |OuterLoop(body, reps)| - 1
  {
    if j >= |OuterLoop(body, reps - 1)| {
    } else {
      OuterLast(body, reps - 1, j);
    }
  }

  lemma {:induction false} InnerLast(body: seq<Offload>, reps: nat, j: nat)
    requires reps > 0 && j < |InnerLoop(body, reps)|
    ensures InnerLoop(body, reps)[j].inst < |body|
    ensures (InnerLoop(body, reps)[j].rep == reps - 1 && InnerLoop(body, reps)[j].inst == |body| - 1)
            <==> j == |InnerLoop(body, reps)| - 1
  {
    if j >= |InnerLoop(body[..|body| - 1], reps)| {
    } else {
      InnerLast(body[..|body| - 1], reps, j);
    }
  }

  /** Copies the body once more (lines 431 to 437). */
  method CopyPass(outer: seq<Entry>, rep: nat, ghost body: seq<Offload>) returns (r: seq<Entry>)
    requires outer == Pass(body, 0)
    ensures r == Pass(body, rep)
  {
    r := [];
    for i := 0 to |outer|
      invariant |r| == i && forall k :: 0 <= k < i ==> r[k] == Tagged(body[k], rep, k)
    {
      r := r + [Entry(outer[i].pc, outer[i].section, rep, i)];
    }
  }

  /** A body instruction arrives in an outer loop: it is issued as it comes, and with the last one the remaining
      iterations are laid out (lines 425 to 437). */
  method FillOuter(cfg: Config, o: Offload, outer: seq<Entry>, ghost body: seq<Offload>)
    returns (added: seq<Entry>, outer': seq<Entry>)
    requires cfg.isOuter && outer == Pass(body, 0) && |body| <= cfg.maxInst
    ensures Loop(cfg, body + [o]) == Loop(cfg, body) + added && added != [] && outer' == Pass(body + [o], 0)
  {
    added := [Tagged(o, 0, |outer|)];
    outer' := outer + added;
    ghost var full := body + [o];
    assert outer' == Pass(full, 0);
    if |outer| == cfg.maxInst {
      assert OuterLoop(full, 0) == [] && [] + Pass(full, 0) == Pass(full, 0);
      assert OuterLoop(full, 1) == Pass(full, 0);
      for rep := 1 to cfg.maxRpt + 1
        invariant Pass(body, 0) + added == OuterLoop(full, rep) && added != []
      {
        var copy := CopyPass(outer', rep, full);
        Assoc(Pass(body, 0), added, copy);
        added := added + copy;
      }
    }
  }

  /** A body instruction arrives in an inner loop and is repeated at once (lines 439 to 442). */
  method FillInner(cfg: Config, o: Offload, filled: nat, ghost body: seq<Offload>) returns (added: seq<Entry>)
    requires !cfg.isOuter && filled == |body|
    ensures Loop(cfg, body + [o]) == Loop(cfg, body) + added && added != []
  {
    added := [];
    for rep := 0 to cfg.maxRpt + 1
      invariant |added| == rep && forall k :: 0 <= k < rep ==> added[k] == Tagged(o, k, filled)
    {
      added := added + [Tagged(o, rep, filled)];
    }
    assert added == Copies(o, filled, cfg.maxRpt + 1);
    assert (body + [o])[..|body|] == body;
  }

  /** A loop by itself. */
  lemma {:induction false} LoopAlone(cfg: Config, loop: seq<Offload>, more: seq<Config>)
    requires loop != [] && loop[0].isFrep && |loop| <= cfg.maxInst + 2
    ensures Unroll(loop, [cfg] + more) == Outs(cfg, Loop(cfg, loop[1..]))
    ensures |loop| == cfg.maxInst + 2 ==> Closed(loop, [cfg])
  {
    if |loop| == cfg.maxInst + 2 {
      assert loop[1..cfg.maxInst + 2] == loop[1..] && loop[cfg.maxInst + 2..] == [];
      UnrollLoop(loop, [cfg] + more);
    }
  }

  lemma PlainAlone(o: Offload)
    requires !o.isFrep
    ensures Unroll([o], []) == [Plain(o)] && Closed([o], [])
  {
    assert [o][1..] == [];
  }

  /** A loop that is still being taken in has its issues so far at the front of the stream. */
  lemma {:induction false} LoopStarts(cfg: Config, loop: seq<Offload>, more: seq<Offload>, cfgs: seq<Config>)
    requires loop != [] && loop[0].isFrep && |loop| <= cfg.maxInst + 2
    ensures Outs(cfg, Loop(cfg, loop[1..])) <= Unroll(loop + more, [cfg] + cfgs)
    ensures more == [] ==> Outs(cfg, Loop(cfg, loop[1..])) == Unroll(loop + more, [cfg] + cfgs)
  {
    var n := cfg.maxInst + 1;
    var offs := loop + more;
    if |offs| <= n + 1 {
      LoopAlone(cfg, offs, cfgs);
      assert offs[1..] == loop[1..] + more;
      LoopGrows(cfg, loop[1..], more);
      assert more == [] ==> offs == loop;
    } else {
      UnrollLoop(offs, [cfg] + cfgs);
      Cut(loop, more, n + 1);
      LoopGrows(cfg, loop[1..], more[..n + 1 - |loop|]);
    }
  }

  lemma Cut<T>(x: seq<T>, y: seq<T>, n: nat)
    requires 1 <= |x| <= n <= |x + y|
    ensures (x + y)[1..n] == x[1..] + y[..n - |x|]
  {}

  /** Some FREP is offloaded as part of the body of another. */
  predicate Nested(offs: seq<Offload>, cfgs: seq<Config>)
    decreases |offs|
  {
    offs != [] &&
    if !offs[0].isFrep then Nested(offs[1..], cfgs)
    else
      && cfgs != []
      && ((exists i :: 1 <= i < |offs| && i <= cfgs[0].maxInst + 1 && offs[i].isFrep)
          || (|offs| > cfgs[0].maxInst + 1 && Nested(offs[cfgs[0].maxInst + 2..], cfgs[1..])))
  }

  lemma {:induction false} NestedAppend(a: seq<Offload>, ca: seq<Config>, b: seq<Offload>, cb: seq<Config>)
    requires Closed(a, ca) && Nested(b, cb)
    ensures Nested(a + b, ca + cb)
    decreases |a|
  {
    if a == [] {
      assert a + b == b && ca + cb == cb;
    } else if !a[0].isFrep {
      NestedAppend(a[1..], ca, b, cb);
      assert (a + b)[1..] == a[1..] + b;
    } else {
      NestedAppend(a[ca[0].maxInst + 2..], ca[1..], b, cb);
      NestedLoop(a, ca, b, cb);
    }
  }

  lemma {:induction false} NestedLoop(a: seq<Offload>, ca: seq<Config>, b: seq<Offload>, cb: seq<Config>)
    requires a != [] && a[0].isFrep && ca != [] && |a| > ca[0].maxInst + 1
    requires Nested(a[ca[0].maxInst + 2..] + b, ca[1..] + cb)
    ensures Nested(a + b, ca + cb)
  {
    var n := ca[0].maxInst + 1;
    assert (a + b)[n + 1..] == a[n + 1..] + b && (ca + cb)[1..] == ca[1..] + cb;
  }

  // ----- every loop under its own PC

  /** The unrolled stream in which every loop issue carries the PC of the FREP that heads the loop. */
  function Own(offs: seq<Offload>, cfgs: seq<Config>): seq<Issue>
    decreases |offs|
  {
    if offs == [] then []
    else if !offs[0].isFrep then [Plain(offs[0])] + Own(offs[1..], cfgs)
    else if cfgs == [] then []
    else
      var cfg := cfgs[0].(pc := offs[0].pc);
      var n := cfg.maxInst + 1;
      if |offs| <= n then Outs(cfg, Loop(cfg, offs[1..]))
      else Outs(cfg, Loop(cfg, offs[1..n + 1])) + Own(offs[n + 1..], cfgs[1..])
  }

  /** Behind a plain instruction it goes on as behind nothing. */
  lemma {:induction false} OwnPlain(o: Offload, b: seq<Offload>, cb: seq<Config>)
    requires !o.isFrep
    ensures Own([o] + b, cb) == [Issue(o.pc, o.section, None, None)] + Own(b, cb)
  {
    assert ([o] + b)[1..] == b;
  }

  /** A complete loop is |body| * (max_rpt + 1) issues under the PC of its head, and then it goes on. */
  lemma {:induction false} OwnWhole(head: Offload, body: seq<Offload>, cfg: Config, b: seq<Offload>, cb: seq<Config>, k: nat)
    requires head.isFrep && |body| == cfg.maxInst + 1 && k < |Loop(cfg.(pc := head.pc), body)|
    ensures var loop := Loop(cfg.(pc := head.pc), body);
            && k < |Own([head] + body + b, [cfg] + cb)| && Own([head] + body + b, [cfg] + cb)[|loop|..] == Own(b, cb)
            && Own([head] + body + b, [cfg] + cb)[k] == Issue(loop[k].pc, loop[k].section, Some(head.pc), Some((loop[k].rep, loop[k].inst)))
  {
    var offs, cfgs, own := [head] + body + b, [cfg] + cb, cfg.(pc := head.pc);
    assert offs[1..cfg.maxInst + 2] == body && offs[cfg.maxInst + 2..] == b && cfgs[1..] == cb;
    assert Own(offs, cfgs) == Outs(own, Loop(own, body)) + Own(b, cb);
  }

  /** Configurations are handed PCs in the order of the FREPs offloaded. Without nesting, that is the right one. */
  lemma {:induction false} OwnPcs(offs: seq<Offload>, cfgs: seq<Config>)
    requires !Nested(offs, cfgs) && Pcs(cfgs) <= FrepPcs(offs)
    ensures Unroll(offs, cfgs) == Own(offs, cfgs)
    decreases |offs|
  {
    if offs == [] {
    } else {
      FrepPcsHead(offs);
      if !offs[0].isFrep {
        OwnPcs(offs[1..], cfgs);
      } else if cfgs != [] {
        assert Pcs(cfgs)[0] == cfgs[0].pc;
        if |offs| > cfgs[0].maxInst + 1 {
          OwnRest(offs, cfgs);
          OwnPcs(offs[cfgs[0].maxInst + 2..], cfgs[1..]);
        }
        OwnLoop(offs, cfgs);
      }
    }
  }

  lemma {:induction false} OwnLoop(offs: seq<Offload>, cfgs: seq<Config>)
    requires offs != [] && offs[0].isFrep && cfgs != [] && cfgs[0].pc == offs[0].pc
    requires |offs| > cfgs[0].maxInst + 1 ==>
               Unroll(offs[cfgs[0].maxInst + 2..], cfgs[1..]) == Own(offs[cfgs[0].maxInst + 2..], cfgs[1..])
    ensures Unroll(offs, cfgs) == Own(offs, cfgs)
  {
    assert cfgs[0] == cfgs[0].(pc := offs[0].pc);
  }

  lemma {:induction false} OwnRest(offs: seq<Offload>, cfgs: seq<Config>)
    requires !Nested(offs, cfgs) && Pcs(cfgs) <= FrepPcs(offs)
    requires offs != [] && offs[0].isFrep && cfgs != [] && |offs| > cfgs[0].maxInst + 1
    ensures Pcs(cfgs[1..]) <= FrepPcs(offs[cfgs[0].maxInst + 2..])
  {
    BodyPlain(offs, cfgs);
    LoopPcs(offs, cfgs[0].maxInst + 1);
    DropFirst(Pcs(cfgs), offs[0].pc, FrepPcs(offs[cfgs[0].maxInst + 2..]));
    PcsRest(cfgs);
  }

  lemma {:induction false} BodyPlain(offs: seq<Offload>, cfgs: seq<Config>)
    requires !Nested(offs, cfgs) && offs != [] && offs[0].isFrep && cfgs != [] && |offs| > cfgs[0].maxInst + 1
    ensures forall i :: 1 <= i <= cfgs[0].maxInst + 1 ==> !offs[i].isFrep
  {}

  lemma PcsRest(cfgs: seq<Config>)
    requires cfgs != []
    ensures Pcs(cfgs[1..]) == Pcs(cfgs)[1..]
  {}

  lemma DropFirst<T>(s: seq<T>, x: T, t: seq<T>)
    requires s != [] && s <= [x] + t
    ensures s[1..] <= t
  {
    assert ([x] + t)[1..] == t;
  }

  lemma {:induction false} LoopPcs(offs: seq<Offload>, n: nat)
    requires 0 < n < |offs| && offs[0].isFrep && forall i :: 1 <= i <= n ==> !offs[i].isFrep
    ensures FrepPcs(offs) == [offs[0].pc] + FrepPcs(offs[n + 1..])
  {
    var body, rest := offs[1..n + 1], offs[n + 1..];
    FrepPcsHead(offs);
    assert offs[1..] == body + rest;
    FrepPcsAppend(body, rest);
    FrepPcsNone(body);
    assert [] + FrepPcs(rest) == FrepPcs(rest);
  }

  lemma {:induction false} FrepPcsHead(offs: seq<Offload>)
    requires offs != []
    ensures FrepPcs(offs) == (if offs[0].isFrep then [offs[0].pc] else []) + FrepPcs(offs[1..])
  {
    assert offs == [offs[0]] + offs[1..];
    FrepPcsAppend([offs[0]], offs[1..]);
    assert [offs[0]][..0] == [];
  }

  lemma {:induction false} FrepPcsAppend(a: seq<Offload>, b: seq<Offload>)
    ensures FrepPcs(a + b) == FrepPcs(a) + FrepPcs(b)
    decreases |b|
  {
    if b == [] {
      assert a + b == a;
    } else {
      var b' := b[..|b| - 1];
      assert (a + b)[..|a + b| - 1] == a + b';
      FrepPcsAppend(a, b');
      Assoc(FrepPcs(a), FrepPcs(b'), if b[|b| - 1].isFrep then [b[|b| - 1].pc] else []);
    }
  }

  lemma {:induction false} FrepPcsNone(offs: seq<Offload>)
    requires forall i :: 0 <= i < |offs| ==> !offs[i].isFrep
    ensures FrepPcs(offs) == []
    decreases |offs|
  {
    if offs == [] {
    } else {
      FrepPcsNone(offs[..|offs| - 1]);
    }
  }

  // ----- loops, issue by issue

  /** Issue r * n + i of an outer loop over n instructions is instruction i in iteration r, in its own section. */
  lemma {:induction false} OuterAt(body: seq<Offload>, reps: nat, r: nat, i: nat)
    requires r < reps && i < |body|
    ensures |OuterLoop(body, reps)| == reps * |body| && r * |body| + i < reps * |body|
    ensures OuterLoop(body, reps)[r * |body| + i] == Tagged(body[i], r, i)
  {
    OuterLength(body, reps - 1);
    MulStep(reps, |body|);
    if r >= reps - 1 {
    } else {
      OuterAt(body, reps - 1, r, i);
    }
  }

  lemma MulStep(a: nat, n: nat)
    requires a > 0
    ensures a * n == (a - 1) * n + n
  {}

  lemma {:induction false} OuterLength(body: seq<Offload>, reps: nat)
    ensures |OuterLoop(body, reps)| == reps * |body|
  {
    if reps == 0 {
    } else {
      OuterLength(body, reps - 1);
      MulStep(reps, |body|);
    }
  }

  /** Issue i * reps + r of an inner loop is instruction i in iteration r, in its own section. */
  lemma {:induction false} InnerAt(body: seq<Offload>, reps: nat, r: nat, i: nat)
    requires r < reps && i < |body|
    ensures |InnerLoop(body, reps)| == |body| * reps && i * reps + r < |body| * reps
    ensures InnerLoop(body, reps)[i * reps + r] == Tagged(body[i], r, i)
    decreases |body|
  {
    var front := body[..|body| - 1];
    InnerLength(front, reps);
    MulStep(|body|, reps);
    if i >= |front| {
    } else {
      InnerAt(front, reps, r, i);
    }
  }

  lemma {:induction false} InnerLength(body: seq<Offload>, reps: nat)
    ensures |InnerLoop(body, reps)| == |body| * reps
    decreases |body|
  {
    if body == [] {
    } else {
      InnerLength(body[..|body| - 1], reps);
      MulStep(|body|, reps);
    }
  }

  /** A whole loop is (max_inst + 1) * (max_rpt + 1) issues. */
  lemma LoopLength(cfg: Config, body: seq<Offload>)
    requires |body| == cfg.maxInst + 1
    ensures |Outs(cfg, Loop(cfg, body))| == (cfg.maxInst + 1) * (cfg.maxRpt + 1)
  {
    InnerLength(body, cfg.maxRpt + 1);
    OuterLength(body, cfg.maxRpt + 1);
  }

  // ----- the stream, issue by issue

  /** Without FREPs every offload is issued once, in order, under its own PC and section and with no loop annotation. */
  lemma {:induction false} NoFreps(offs: seq<Offload>, cfgs: seq<Config>)
    requires forall i :: 0 <= i < |offs| ==> !offs[i].isFrep
    ensures |Unroll(offs, cfgs)| == |offs|
    ensures forall i :: 0 <= i < |offs| ==>
              var u := Unroll(offs, cfgs)[i];
              u.pc == offs[i].pc && u.section == offs[i].section && u.frep.None? && u.annot.None?
  {
    if offs == [] {
    } else {
      NoFreps(offs[1..], cfgs);
      UnrollPlain(offs, cfgs);
    }
  }

  /** An offload o that is no FREP, between whole items a and whatever follows, is the issue right after those of a. */
  lemma {:induction false} PlainIssue(a: seq<Offload>, ca: seq<Config>, o: Offload, b: seq<Offload>, cb: seq<Config>)
    requires Closed(a, ca) && !o.isFrep
    ensures |Unroll(a, ca)| < |Unroll(a + ([o] + b), ca + cb)|
    ensures var u := Unroll(a + ([o] + b), ca + cb)[|Unroll(a, ca)|];
            u.pc == o.pc && u.section == o.section && u.frep.None? && u.annot.None?
  {
    UnrollAppend(a, ca, [o] + b, cb);
    UnrollPlain([o] + b, cb);
  }

  /** Of a loop between whole items a and whatever follows: instruction i in iteration r is at r * n + i of an outer loop, and at
      i * (max_rpt + 1) + r of an inner one, under its own PC and section and with the PC of the loop. */
  lemma {:induction false} LoopIssue(a: seq<Offload>, ca: seq<Config>, head: Offload, body: seq<Offload>, cfg: Config,
                                     b: seq<Offload>, cb: seq<Config>, whole: seq<Issue>, r: nat, i: nat, k: nat)
    requires Closed(a, ca) && head.isFrep && |body| == cfg.maxInst + 1 && r <= cfg.maxRpt && i < |body|
    requires whole == Unroll(a + ([head] + body + b), ca + ([cfg] + cb))
    requires k == if cfg.isOuter then r * |body| + i else i * (cfg.maxRpt + 1) + r
    ensures |Unroll(a, ca)| + k < |whole|
    ensures var u := whole[|Unroll(a, ca)| + k];
            u.pc == body[i].pc && u.section == body[i].section && u.frep == Some(cfg.pc) && u.annot == Some((r, i))
  {
    LoopBetween(a, ca, head, body, cfg, b, cb);
    LoopAt(cfg, body, r, i, k);
    Middle(Unroll(a, ca), Outs(cfg, Loop(cfg, body)), Unroll(b, cb), whole, k);
  }

  lemma {:induction false} LoopBetween(a: seq<Offload>, ca: seq<Config>, head: Offload, body: seq<Offload>, cfg: Config,
                                       b: seq<Offload>, cb: seq<Config>)
    requires Closed(a, ca) && head.isFrep && |body| == cfg.maxInst + 1
    ensures Unroll(a + ([head] + body + b), ca + ([cfg] + cb)) == Unroll(a, ca) + (Outs(cfg, Loop(cfg, body)) + Unroll(b, cb))
  {
    UnrollAppend(a, ca, [head] + body + b, [cfg] + cb);
    LoopAtHead(head, body, cfg, b, cb);
  }

  lemma Middle<T>(first: seq<T>, loop: seq<T>, rest: seq<T>, whole: seq<T>, k: nat)
    requires whole == first + (loop + rest) && k < |loop|
    ensures |first| + k < |whole| && whole[|first| + k] == loop[k]
  {}

  lemma {:induction false} LoopAtHead(head: Offload, body: seq<Offload>, cfg: Config, b: seq<Offload>, cb: seq<Config>)
    requires head.isFrep && |body| == cfg.maxInst + 1
    ensures Unroll([head] + body + b, [cfg] + cb) == Outs(cfg, Loop(cfg, body)) + Unroll(b, cb)
  {
    var offs, cfgs := [head] + body + b, [cfg] + cb;
    UnrollLoop(offs, cfgs);
    assert offs[1..cfg.maxInst + 2] == body && Behind(offs, cfgs) == b && cfgs[1..] == cb;
  }

  lemma {:induction false} LoopAt(cfg: Config, body: seq<Offload>, r: nat, i: nat, k: nat)
    requires |body| == cfg.maxInst + 1 && r <= cfg.maxRpt && i < |body|
    requires k == if cfg.isOuter then r * |body| + i else i * (cfg.maxRpt + 1) + r
    ensures k < |Loop(cfg, body)| && Loop(cfg, body)[k] == Tagged(body[i], r, i)
  {
    if cfg.isOuter { OuterAt(body, cfg.maxRpt + 1, r, i); } else { InnerAt(body, cfg.maxRpt + 1, r, i); }
  }

  /** When configurations are handed PCs in the order of the FREPs offloaded and no FREP is nested, the PC of a loop is that of
      the FREP that heads it. */
  lemma {:induction false} LoopOwnPc(a: seq<Offload>, ca: seq<Config>, head: Offload, rest: seq<Offload>, cfg: Config, cb: seq<Config>)
    requires Closed(a, ca) && head.isFrep && !Nested(a + ([head] + rest), ca + ([cfg] + cb))
    requires Pcs(ca + ([cfg] + cb)) <= FrepPcs(a + ([head] + rest))
    ensures cfg.pc == head.pc
    decreases |a|
  {
    var offs, cfgs := a + ([head] + rest), ca + ([cfg] + cb);
    FrepPcsHead(offs);
    assert Pcs(cfgs)[0] == cfgs[0].pc;
    if a == [] {
      assert offs[0] == head && cfgs[0] == cfg;
    } else if !a[0].isFrep {
      assert offs[1..] == a[1..] + ([head] + rest);
      LoopOwnPc(a[1..], ca, head, rest, cfg, cb);
    } else {
      OwnRest(offs, cfgs);
      HeadAppend(a, ca, [head] + rest, [cfg] + cb);
      LoopOwnPc(Behind(a, ca), ca[1..], head, rest, cfg, cb);
    }
  }

  // ----- the emulator

  /** What has come in, split into finished items and the loop at hand, and what has been issued: of that loop, `sofar`. */
  datatype Log = Log(past: seq<Offload>, pastCfgs: seq<Config>, loop: seq<Offload>, sofar: seq<Entry>)

  function Issued(h: Log, current: Option<Running>): seq<Issue> {
    if current.None? then Unroll(h.past, h.pastCfgs) else Unroll(h.past, h.pastCfgs) + Outs(current.value.cfg, h.sofar)
  }

  function Offloaded(h: Log, pcs: seq<Offload>, current: Option<Running>): seq<Offload> {
    h.past + ((if current.None? then [] else h.loop) + pcs)
  }

  function Configured(h: Log, cfgs: seq<Config>, current: Option<Running>): seq<Config> {
    h.pastCfgs + ((if current.None? then [] else [current.value.cfg]) + cfgs)
  }

  predicate Tracks(h: Log, current: Option<Running>) {
    && Closed(h.past, h.pastCfgs)
    && (current.Some? ==> InLoop(current.value, h.loop, h.sofar))
  }

  lemma BeginTracks(h: Log, pcs: seq<Offload>, cfgs: seq<Config>, h': Log, c: Option<Running>)
    requires Tracks(h, None) && pcs != [] && pcs[0].isFrep && cfgs != []
    requires h' == h.(loop := [pcs[0]], sofar := []) && c == Some(Running(cfgs[0], 0, [], []))
    ensures Tracks(h', c) && Issued(h', c) == Issued(h, None)
    ensures Offloaded(h', pcs[1..], c) == Offloaded(h, pcs, None)
    ensures Configured(h', cfgs[1..], c) == Configured(h, cfgs, None)
  {
    assert [pcs[0]] + pcs[1..] == [] + pcs;
    assert [cfgs[0]] + cfgs[1..] == [] + cfgs;
    assert h'.loop[1..] == [];
  }

  lemma FillTracks(h: Log, c: Running, o: Offload, added: seq<Entry>, outer: seq<Entry>, h': Log, c': Running)
    requires InLoop(c, h.loop, h.sofar) && c.filled <= c.cfg.maxInst && added != []
    requires Loop(c.cfg, h.loop[1..] + [o]) == Loop(c.cfg, h.loop[1..]) + added
    requires c.cfg.isOuter ==> outer == Pass(h.loop[1..] + [o], 0)
    requires h' == h.(loop := h.loop + [o]) && c' == c.(filled := c.filled + 1, buf := c.buf + added, outer := outer)
    ensures InLoop(c', h'.loop, h'.sofar)
  {
    assert h'.loop[1..] == h.loop[1..] + [o];
    Assoc(h.sofar, c.buf, added);
  }

  lemma TakeTracks(h: Log, c: Running, h': Log, c': Running)
    requires InLoop(c, h.loop, h.sofar) && c.buf != []
    requires h' == h.(sofar := h.sofar + [c.buf[0]]) && c' == c.(buf := c.buf[1..])
    ensures Issued(h', Some(c')) == Issued(h, Some(c)) + [Out(c.cfg, c.buf[0])]
    ensures if c.buf[0].rep == c.cfg.maxRpt && c.buf[0].inst == c.cfg.maxInst
            then c.filled == c.cfg.maxInst + 1 && h'.sofar == Loop(c.cfg, h.loop[1..])
            else InLoop(c', h'.loop, h'.sofar)
  {
    var e := c.buf[0];
    LastOnly(c.cfg, h.loop[1..], |h.sofar|);
    assert (h.sofar + c.buf)[|h.sofar|] == e;
    assert h.sofar + [e] + c.buf[1..] == h.sofar + c.buf;
    assert Outs(c.cfg, h'.sofar) == Outs(c.cfg, h.sofar) + [Out(c.cfg, e)];
    Assoc(Unroll(h.past, h.pastCfgs), Outs(c.cfg, h.sofar), [Out(c.cfg, e)]);
  }

  lemma FinishTracks(h: Log, c: Running, h': Log)
    requires Closed(h.past, h.pastCfgs) && h.loop != [] && h.loop[0].isFrep && |h.loop| == c.cfg.maxInst + 2
    requires h.sofar == Loop(c.cfg, h.loop[1..])
    requires h' == Log(h.past + h.loop, h.pastCfgs + [c.cfg], [], [])
    ensures Tracks(h', None) && Issued(h', None) == Issued(h, Some(c))
  {
    LoopAlone(c.cfg, h.loop, []);
    assert [c.cfg] + [] == [c.cfg];
    UnrollAppend(h.past, h.pastCfgs, h.loop, [c.cfg]);
    ClosedAppend(h.past, h.pastCfgs, h.loop, [c.cfg]);
  }

  lemma FinishMoves(h: Log, c: Running, pcs: seq<Offload>, cfgs: seq<Config>, h': Log)
    requires h' == Log(h.past + h.loop, h.pastCfgs + [c.cfg], [], [])
    ensures Offloaded(h', pcs, None) == Offloaded(h, pcs, Some(c))
    ensures Configured(h', cfgs, None) == Configured(h, cfgs, Some(c))
  {
  }

  lemma {:induction false} PassTracks(h: Log, pcs: seq<Offload>, h': Log)
    requires Tracks(h, None) && pcs != [] && !pcs[0].isFrep && h' == h.(past := h.past + [pcs[0]])
    ensures Tracks(h', None) && Issued(h', None) == Issued(h, None) + [Plain(pcs[0])]
    ensures Offloaded(h', pcs[1..], None) == Offloaded(h, pcs, None)
  {
    PastGrows(h.past, h.pastCfgs, pcs[0]);
    PastMoves(h.past, pcs);
  }

  lemma {:induction false} PastGrows(past: seq<Offload>, cfgs: seq<Config>, o: Offload)
    requires Closed(past, cfgs) && !o.isFrep
    ensures Closed(past + [o], cfgs) && Unroll(past + [o], cfgs) == Unroll(past, cfgs) + [Plain(o)]
  {
    PlainAlone(o);
    UnrollAppend(past, cfgs, [o], []);
    ClosedAppend(past, cfgs, [o], []);
    assert cfgs + [] == cfgs;
  }

  lemma PastMoves(past: seq<Offload>, pcs: seq<Offload>)
    requires pcs != []
    ensures past + [pcs[0]] + ([] + pcs[1..]) == past + ([] + pcs)
  {}

  /** Nothing more can be issued. */
  predicate Drained(pcs: seq<Offload>, cfgs: seq<Config>, current: Option<Running>) {
    match current
    case None => pcs == [] || (pcs[0].isFrep && cfgs == [])
    case Some(c) => pcs == [] && c.buf == []
  }

  /** What has been issued is a prefix of the unrolled stream, and all of it when nothing is left. */
  lemma IssuedPrefix(h: Log, pcs: seq<Offload>, cfgs: seq<Config>, current: Option<Running>)
    requires Tracks(h, current)
    ensures Issued(h, current) <= Unroll(Offloaded(h, pcs, current), Configured(h, cfgs, current))
    ensures Drained(pcs, cfgs, current) ==>
              Issued(h, current) == Unroll(Offloaded(h, pcs, current), Configured(h, cfgs, current))
  {
    if current.None? {
      UnrollAppend(h.past, h.pastCfgs, [] + pcs, [] + cfgs);
    } else {
      var c := current.value;
      UnrollAppend(h.past, h.pastCfgs, h.loop + pcs, [c.cfg] + cfgs);
      LoopStarts(c.cfg, h.loop, pcs, cfgs);
      OutsPrefix(c.cfg, h.sofar, Loop(c.cfg, h.loop[1..]));
    }
  }

  lemma OutsPrefix(cfg: Config, s: seq<Entry>, t: seq<Entry>)
    requires s <= t
    ensures Outs(cfg, s) <= Outs(cfg, t)
    ensures s == t ==> Outs(cfg, s) == Outs(cfg, t)
  {}

  /** An FREP at the head of the queue while a loop body is being taken in is a nested one. */
  lemma NestedHere(h: Log, pcs: seq<Offload>, cfgs: seq<Config>, c: Running)
    requires Tracks(h, Some(c)) && c.filled <= c.cfg.maxInst && pcs != [] && pcs[0].isFrep
    ensures Nested(Offloaded(h, pcs, Some(c)), Configured(h, cfgs, Some(c)))
  {
    var offs := h.loop + pcs;
    assert offs[|h.loop|].isFrep;
    NestedAppend(h.past, h.pastCfgs, offs, [c.cfg] + cfgs);
  }

  /** One more offload at the end of the queue. */
  lemma PushMoves(h: Log, pcs: seq<Offload>, o: Offload, current: Option<Running>)
    ensures Offloaded(h, pcs + [o], current) == Offloaded(h, pcs, current) + [o]
    ensures FrepPcs(Offloaded(h, pcs, current) + [o]) == FrepPcs(Offloaded(h, pcs, current)) + if o.isFrep then [o.pc] else []
  {
    var all := Offloaded(h, pcs, current);
    assert h.past + ((if current.None? then [] else h.loop) + (pcs + [o])) == all + [o];
    assert (all + [o])[..|all|] == all;
  }

  /** The annotator's sequencer state, queues oldest first. `log`, `offloads`, `configs` and `emitted` record the run. */
  class Sequencer {
    var fpssPcs: seq<Offload>
    var fseqPcs: seq<Pc>
    var cfgBuf: seq<Config>
    var current: Option<Running>

    ghost var log: Log
    ghost var offloads: seq<Offload>
    ghost var configs: seq<Config>
    ghost var emitted: seq<Issue>

    ghost predicate Valid()
      reads this
    {
      var valid :=
        && Tracks(log, current) && emitted == Issued(log, current)
        && offloads == Offloaded(log, fpssPcs, current) && configs == Configured(log, cfgBuf, current)
        && FrepPcs(offloads) == Pcs(configs) + fseqPcs;
      valid
    }

    constructor ()
      ensures Valid() && offloads == [] && configs == [] && emitted == [] && fseqPcs == []
    {
      fpssPcs, fseqPcs, cfgBuf, current := [], [], [], None;
      log, offloads, configs, emitted := Log([], [], [], []), [], [], [];
    }

    /** The core offloads an instruction (lines 661 to 667). */
    method Push(pc: Pc, section: nat, isFrep: bool)
      requires Valid()
      modifies this
      ensures Valid() && offloads == old(offloads) + [Offload(pc, section, isFrep)]
      ensures configs == old(configs) && emitted == old(emitted)
      ensures fseqPcs == if isFrep then old(fseqPcs) + [pc] else old(fseqPcs)
    {
      var o := Offload(pc, section, isFrep);
      PushMoves(log, fpssPcs, o, current);
      fpssPcs := fpssPcs + [o];
      offloads := offloads + [o];
      if isFrep {
        Assoc(Pcs(configs), fseqPcs, [pc]);
        fseqPcs := fseqPcs + [pc];
      }
    }

    /** The sequencer accepts a configuration (lines 674 to 679): it belongs to the oldest FREP without one. */
    method PushConfig(maxInst: nat, maxRpt: nat, isOuter: bool) returns (r: Result<Pc>)
      requires Valid()
      modifies this
      ensures Valid() && offloads == old(offloads) && emitted == old(emitted)
      ensures r.Err? <==> old(fseqPcs) == []
      ensures r.Err? ==> configs == old(configs) && fseqPcs == old(fseqPcs)
      ensures r.Ok? ==> && r.value == old(fseqPcs)[0] && fseqPcs == old(fseqPcs)[1..]
                        && configs == old(configs) + [Config(maxInst, maxRpt, isOuter, r.value)]
    {
      if fseqPcs == [] {
        return Err(QueueEmpty);
      }
      var cfg := Config(maxInst, maxRpt, isOuter, fseqPcs[0]);
      ghost var open := if current.None? then [] else [current.value.cfg];
      assert log.pastCfgs + (open + (cfgBuf + [cfg])) == log.pastCfgs + (open + cfgBuf) + [cfg];
      assert Pcs(configs + [cfg]) + fseqPcs[1..] == Pcs(configs) + fseqPcs;
      cfgBuf := cfgBuf + [cfg];
      fseqPcs := fseqPcs[1..];
      configs := configs + [cfg];
      r := Ok(cfg.pc);
    }

    /** Takes up the FREP at the head of the queue (lines 404 to 410). */
    method Begin()
      requires Valid() && current.None? && fpssPcs != [] && fpssPcs[0].isFrep && cfgBuf != []
      modifies this`fpssPcs, this`cfgBuf, this`current, this`log
      ensures Valid() && current.Some?
    {
      var begun := Some(Running(cfgBuf[0], 0, [], []));
      ghost var after := log.(loop := [fpssPcs[0]], sofar := []);
      BeginTracks(log, fpssPcs, cfgBuf, after, begun);
      fpssPcs, cfgBuf, current := fpssPcs[1..], cfgBuf[1..], begun;
      log := after;
    }

    /** Takes in the next instruction of the loop body (lines 415 to 444). */
    method Fill()
      requires Valid() && current.Some? && current.value.filled <= current.value.cfg.maxInst && fpssPcs != []
      modifies this`fpssPcs, this`current, this`log
      ensures Valid() && current.Some? && current.value.buf != [] && current.value.cfg == old(current.value.cfg)
    {
      var o, c := fpssPcs[0], current.value;
      ghost var h := log;
      var added, outer := [], c.outer;
      if c.cfg.isOuter {
        added, outer := FillOuter(c.cfg, o, c.outer, h.loop[1..]);
      } else {
        added := FillInner(c.cfg, o, c.filled, h.loop[1..]);
      }
      current := Some(Running(c.cfg, c.filled + 1, c.buf + added, outer));
      log := Log(h.past, h.pastCfgs, h.loop + [o], h.sofar);
      FillTracks(h, c, o, added, outer, log, current.value);
      assert h.loop + fpssPcs == h.loop + [o] + fpssPcs[1..];
      fpssPcs := fpssPcs[1..];
    }

    /** Issues the next entry of the loop buffer, and leaves the loop with its last one (lines 446 to 449). */
    method Take() returns (r: Issue)
      requires Valid() && current.Some? && current.value.buf != []
      modifies this`current, this`log, this`emitted
      ensures Valid() && emitted == old(emitted) + [r]
      ensures var e := old(current.value.buf)[0];
              r.pc == e.pc && r.section == e.section && r.frep == Some(old(current.value.cfg.pc)) && r.annot == Some((e.rep, e.inst))
    {
      var c := current.value;
      var e := c.buf[0];
      var c' := Running(c.cfg, c.filled, c.buf[1..], c.outer);
      ghost var h := Log(log.past, log.pastCfgs, log.loop, log.sofar + [e]);
      TakeTracks(log, c, h, c');
      r := Out(c.cfg, e);
      emitted := emitted + [r];
      if e.rep == c.cfg.maxRpt && e.inst == c.cfg.maxInst {
        current := None;
        log := Log(h.past + h.loop, h.pastCfgs + [c.cfg], [], []);
        FinishTracks(h, c', log);
        FinishMoves(h, c', fpssPcs, cfgBuf, log);
      } else {
        current := Some(c');
        log := h;
      }
    }

    /** Issues an instruction outside of loops (line 452). */
    method PassOn() returns (r: Issue)
      requires Valid() && current.None? && fpssPcs != [] && !fpssPcs[0].isFrep
      modifies this`fpssPcs, this`log, this`emitted
      ensures Valid() && emitted == old(emitted) + [r]
      ensures var o := old(fpssPcs)[0]; r.pc == o.pc && r.section == o.section && r.frep.None? && r.annot.None?
    {
      r := Plain(fpssPcs[0]);
      ghost var h := log;
      log := Log(h.past + [fpssPcs[0]], h.pastCfgs, h.loop, h.sofar);
      PassTracks(h, fpssPcs, log);
      fpssPcs := fpssPcs[1..];
      emitted := emitted + [r];
    }

    /** One issue of the floating-point unit (lines 395 to 454). The queues are looked at before they are popped: where
        the script would fail on an empty queue or stop at a nested FREP, it ends. */
    method Emulate(permissive: bool) returns (r: Result<Issue>)
      requires Valid()
      modifies this`fpssPcs, this`cfgBuf, this`current, this`log, this`emitted
      ensures Valid()
      ensures r.Ok? ==> && emitted == old(emitted) + [r.value] && |old(emitted)| < |Unroll(offloads, configs)|
                        && r.value == Unroll(offloads, configs)[|old(emitted)|]
      ensures r.Err? ==> emitted == old(emitted)
      ensures r == Err(QueueEmpty) ==> emitted == Unroll(offloads, configs)
      ensures r == Err(NestedFrep) ==> !permissive && Nested(offloads, configs)
      ensures old(current).None? && old(fpssPcs) != [] && !old(fpssPcs)[0].isFrep ==>
                && r.Ok? && r.value.pc == old(fpssPcs)[0].pc && r.value.section == old(fpssPcs)[0].section
                && r.value.frep.None? && r.value.annot.None?
      ensures r.Ok? && old(current).Some? ==> r.value.frep == Some(old(current).value.cfg.pc) && r.value.annot.Some?
    {
      if current.None? && fpssPcs != [] && fpssPcs[0].isFrep {
        if cfgBuf == [] {
          IssuedPrefix(log, fpssPcs, cfgBuf, current);
          return Err(QueueEmpty);
        }
        Begin();
      }
      if current.Some? {
        r := EmulateLoop(permissive);
      } else if fpssPcs == [] {
        r := Err(QueueEmpty);
      } else {
        var issue := PassOn();
        r := Ok(issue);
      }
      IssuedPrefix(log, fpssPcs, cfgBuf, current);
    }

    /** The same inside a loop. */
    method EmulateLoop(permissive: bool) returns (r: Result<Issue>)
      requires Valid() && current.Some?
      modifies this`fpssPcs, this`current, this`log, this`emitted
      ensures Valid()
      ensures r.Ok? ==> emitted == old(emitted) + [r.value] && r.value.frep == Some(old(current).value.cfg.pc) && r.value.annot.Some?
      ensures r.Err? ==> emitted == old(emitted)
      ensures r == Err(QueueEmpty) ==> Drained(fpssPcs, cfgBuf, current)
      ensures r == Err(NestedFrep) ==> !permissive && Nested(offloads, configs)
    {
      if current.value.filled <= current.value.cfg.maxInst && fpssPcs != [] {
        if fpssPcs[0].isFrep && !permissive {
          NestedHere(log, fpssPcs, cfgBuf, current.value);
          return Err(NestedFrep);
        }
        Fill();
      }
      if current.value.buf == [] {
        return Err(QueueEmpty);
      }
      var issue := Take();
      r := Ok(issue);
    }

    /** At every point of a run, what has been issued is a prefix of the unrolled stream; without nested FREPs, of the one
        that charges every loop to its own PC. */
    lemma Run()
      requires Valid()
      ensures emitted <= Unroll(offloads, configs)
      ensures !Nested(offloads, configs) ==> emitted <= Own(offloads, configs)
    {
      IssuedPrefix(log, fpssPcs, cfgBuf, current);
      if !Nested(offloads, configs) {
        OwnPcs(offloads, configs);
      }
    }
  }
}
