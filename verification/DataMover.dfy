/** The data-mover queue: one client core fills a ring of four task slots, the data-mover core issues them to
    the DMA engine. One act per access to the shared structure, interrupt operation or DMA status read.
    A poll that would spin is an act that is not enabled. */
module DataMover {

  const SLOTS: nat := 4

  /** A task slot, word by word; `twod` selects which words are used. */
  datatype Task = Task(src: int, dst: int, size: int, sstrd: int, dstrd: int, nreps: int, cfg: int, twod: int)

  /** What the DMA engine is told to do. */
  datatype Transfer =
    | OneD(src: int, dst: int, size: int, cfg: int)
    | TwoD(src: int, dst: int, size: int, sstrd: int, dstrd: int, nreps: int, cfg: int)

  datatype Field = Src | Dst | Size | Sstrd | Dstrd | Nreps | Cfg | Twod

  function Load(t: Task, f: Field): int {
    match f
    case Src => t.src
    case Dst => t.dst
    case Size => t.size
    case Sstrd => t.sstrd
    case Dstrd => t.dstrd
    case Nreps => t.nreps
    case Cfg => t.cfg
    case Twod => t.twod
  }

  function Store(t: Task, f: Field, v: int): Task {
    match f
    case Src => t.(src := v)
    case Dst => t.(dst := v)
    case Size => t.(size := v)
    case Sstrd => t.(sstrd := v)
    case Dstrd => t.(dstrd := v)
    case Nreps => t.(nreps := v)
    case Cfg => t.(cfg := v)
    case Twod => t.(twod := v)
  }

  function View(t: Task): Transfer {
    if t.twod == 0 then OneD(t.src, t.dst, t.size, t.cfg)
    else TwoD(t.src, t.dst, t.size, t.sstrd, t.dstrd, t.nreps, t.cfg)
  }

  /** The words dm_memcpy_async and dm_memcpy2d_async write, in their order. */
  function Writes(t: Task): seq<Field> {
    if t.twod == 0 then [Src, Dst, Size, Twod, Cfg]
    else [Src, Dst, Size, Sstrd, Dstrd, Nreps, Twod, Cfg]
  }

  /** The words the data mover reads for a transfer after it has read `twod`. */
  function Reads(twod: int): seq<Field> {
    if twod == 0 then [Src, Dst, Size, Cfg]
    else [Src, Dst, Size, Sstrd, Dstrd, Nreps, Cfg]
  }

  datatype Stat = NoRequest | WaitIdle | Exit | Ready

  datatype DmPc =
    | Top | WaitDma | ReadBack | ReadTwod(slot: nat) | Fetch(slot: nat, k: nat) | Issue(slot: nat) | BumpBack | DropFill
    | CheckStat | Switch | PollBusy | SetValid | ClearStat | SleepFill | SleepStat
    | BumpWfi | Wfi | ClearIrq | DropWfi | Stopped

  datatype ClientPc =
    | Idle
    | PollFill(t: Task) | LockCopy(t: Task) | ReadFront(t: Task) | Fill(t: Task, slot: nat, k: nat)
    | BumpFill(t: Task, slot: nat) | BumpFront | UnlockCopy
    | StartPoll | StartSet
    | DrainPoll | DrainSet | DrainFill | DrainStat
    | AskLock(q: Stat) | AskInvalid(q: Stat) | AskStat(q: Stat) | AskPoll(q: Stat) | AskSet(q: Stat) | AskValid(q: Stat)
    | AskUnlock(q: Stat)
    | ExitStat | ExitPoll | ExitSet | Gone

  /** The ring of slots. `sent`, `issued` and `retired` are history: what was made visible to the data mover,
      what it issued, and how many slots it gave back. */
  datatype Ring = Ring(queue: seq<Task>, back: nat, front: nat, fill: nat,
                       sent: seq<Transfer>, issued: seq<Transfer>, retired: nat)

  /** `outstanding` transfers are in the engine, which accepts up to `depth`. `hasty` is history: the last call
      of dm_wait_ready found an earlier request still to be cleared. */
  datatype State = State(
    ring: Ring, mutex: bool, stat: Stat, valid: bool, wfi: nat, irq: bool,
    outstanding: nat, depth: nat, dm: DmPc, got: Task, client: ClientPc, hasty: bool)

  datatype Act = Dm | Client | Complete
               | CallCopy(t: Task) | CallStart | CallWait | CallReady | CallExit

  // ----- dm_main

  /** The three parts of the loop body: issue a task, answer a request, sleep. */
  predicate Serving(pc: DmPc) { pc.Top? || Holding(pc) }
  predicate Replying(pc: DmPc) { pc.CheckStat? || Answering(pc) }
  predicate Resting(pc: DmPc) { pc.SleepFill? || pc.SleepStat? || pc.BumpWfi? || Dozing(pc) }

  /** The data mover holds the oldest slot and has not given it back. */
  predicate Holding(pc: DmPc) {
    pc.WaitDma? || pc.ReadBack? || pc.ReadTwod? || pc.Fetch? || pc.Issue? || pc.BumpBack? || pc.DropFill?
  }

  /** The data mover is answering the request it has seen. */
  predicate Answering(pc: DmPc) { pc.Switch? || pc.PollBusy? || pc.SetValid? || pc.ClearStat? }

  predicate Dozing(pc: DmPc) { pc.Wfi? || pc.ClearIrq? || pc.DropWfi? }

  predicate DmEnabled(s: State) {
    match s.dm
    case WaitDma => s.outstanding < s.depth
    case ReadTwod(i) => i < |s.ring.queue|
    case Fetch(i, k) => i < |s.ring.queue| && k < |Reads(s.got.twod)|
    case DropFill => s.ring.fill > 0
    case Wfi => s.irq
    case DropWfi => s.wfi > 0
    case Stopped => false
    case _ => true
  }

  function Serve(s: State): State
    requires DmEnabled(s) && Serving(s.dm)
  {
    match s.dm
    case Top => s.(dm := if s.ring.fill != 0 then WaitDma else CheckStat)
    case WaitDma => s.(dm := ReadBack)
    case ReadBack => s.(dm := ReadTwod(s.ring.back))
    case ReadTwod(i) => s.(dm := Fetch(i, 0), got := s.got.(twod := s.ring.queue[i].twod))
    case Fetch(i, k) =>
      var f := Reads(s.got.twod)[k];
      s.(dm := if k + 1 < |Reads(s.got.twod)| then Fetch(i, k + 1) else Issue(i), got := Store(s.got, f, Load(s.ring.queue[i], f)))
    case Issue(_) =>
      s.(dm := BumpBack, ring := s.ring.(issued := s.ring.issued + [View(s.got)]), outstanding := s.outstanding + 1)
    case BumpBack => s.(dm := DropFill, ring := s.ring.(back := (s.ring.back + 1) % SLOTS))
    case DropFill => s.(dm := CheckStat, ring := s.ring.(fill := s.ring.fill - 1, retired := s.ring.retired + 1))
  }

  function Reply(s: State): State
    requires Replying(s.dm)
  {
    match s.dm
    case CheckStat => s.(dm := if s.stat != NoRequest then Switch else SleepFill)
    case Switch =>
      s.(dm := match s.stat case WaitIdle => PollBusy case Exit => Stopped case Ready => SetValid case NoRequest => SleepFill)
    case PollBusy => s.(dm := if s.outstanding == 0 then SetValid else SleepFill)
    case SetValid => s.(dm := ClearStat, valid := true)
    case ClearStat => s.(dm := SleepFill, stat := NoRequest)
  }

  function Rest(s: State): State
    requires DmEnabled(s) && Resting(s.dm)
  {
    match s.dm
    case SleepFill => s.(dm := if s.ring.fill != 0 then Top else SleepStat)
    case SleepStat => s.(dm := if s.stat != NoRequest then Top else BumpWfi)
    case BumpWfi => s.(dm := Wfi, wfi := s.wfi + 1)
    case Wfi => s.(dm := ClearIrq)
    case ClearIrq => s.(dm := DropWfi, irq := false)
    case DropWfi => s.(dm := Top, wfi := s.wfi - 1)
  }

  function DmAct(s: State): State
    requires DmEnabled(s)
  {
    if Serving(s.dm) then Serve(s) else if Replying(s.dm) then Reply(s) else Rest(s)
  }

  // ----- the client functions

  predicate ClientEnabled(s: State) {
    match s.client
    case Idle => false
    case PollFill(_) => s.ring.fill < SLOTS
    case LockCopy(_) => !s.mutex
    case Fill(t, i, k) => i < |s.ring.queue| && k < |Writes(t)|
    case StartPoll => s.wfi != 0
    case DrainPoll => s.wfi != 0
    case DrainFill => s.ring.fill == 0
    case DrainStat => s.stat == NoRequest
    case AskLock(_) => !s.mutex
    case AskPoll(_) => s.wfi != 0
    case AskValid(_) => s.valid
    case ExitPoll => s.wfi != 0
    case Gone => false
    case _ => true
  }

  predicate Copying(pc: ClientPc) {
    pc.PollFill? || pc.LockCopy? || pc.ReadFront? || pc.Fill? || pc.BumpFill? || pc.BumpFront? || pc.UnlockCopy?
  }
  predicate Draining(pc: ClientPc) {
    pc.StartPoll? || pc.StartSet? || pc.DrainPoll? || pc.DrainSet? || pc.DrainFill? || pc.DrainStat?
  }
  /** About to write a request; awaiting its answer. */
  predicate Asking(pc: ClientPc) { pc.AskLock? || pc.AskInvalid? || pc.AskStat? }
  predicate Asked(pc: ClientPc) { pc.AskPoll? || pc.AskSet? || pc.AskValid? }
  predicate Exiting(pc: ClientPc) { pc.ExitPoll? || pc.ExitSet? || pc.Gone? }

  /** dm_memcpy_async, dm_memcpy2d_async */
  function Copy(s: State): State
    requires ClientEnabled(s) && Copying(s.client)
  {
    match s.client
    case PollFill(t) => s.(client := LockCopy(t))
    case LockCopy(t) => s.(client := ReadFront(t), mutex := true)
    case ReadFront(t) => s.(client := Fill(t, s.ring.front, 0))
    case Fill(t, i, k) =>
      var f := Writes(t)[k];
      s.(client := if k + 1 < |Writes(t)| then Fill(t, i, k + 1) else BumpFill(t, i),
         ring := s.ring.(queue := s.ring.queue[i := Store(s.ring.queue[i], f, Load(t, f))]))
    case BumpFill(t, _) =>
      s.(client := BumpFront, ring := s.ring.(fill := s.ring.fill + 1, sent := s.ring.sent + [View(t)]))
    case BumpFront => s.(client := UnlockCopy, ring := s.ring.(front := (s.ring.front + 1) % SLOTS))
    case UnlockCopy => s.(client := Idle, mutex := false)
  }

  /** dm_start, and dm_wait up to the request */
  function Drain(s: State): State
    requires Draining(s.client)
  {
    match s.client
    case StartPoll => s.(client := StartSet)
    case StartSet => s.(client := Idle, irq := true)
    case DrainPoll => s.(client := DrainSet)
    case DrainSet => s.(client := DrainFill, irq := true)
    case DrainFill => s.(client := DrainStat)
    case DrainStat => s.(client := AskLock(WaitIdle))
  }

  /** The request part of dm_wait and dm_wait_ready, and dm_exit */
  function Ask(s: State): State
    requires ClientEnabled(s) && !Copying(s.client) && !Draining(s.client)
  {
    match s.client
    case AskLock(q) => s.(client := AskInvalid(q), mutex := true)
    case AskInvalid(q) => s.(client := AskStat(q), valid := false)
    case AskStat(q) => s.(client := AskPoll(q), stat := q)
    case AskPoll(q) => s.(client := AskSet(q))
    case AskSet(q) => s.(client := AskValid(q), irq := true)
    case AskValid(q) => s.(client := AskUnlock(q))
    case AskUnlock(_) => s.(client := Idle, mutex := false)
    case ExitStat => s.(client := ExitPoll, stat := Exit)
    case ExitPoll => s.(client := ExitSet)
    case ExitSet => s.(client := Gone, irq := true)
  }

  function ClientAct(s: State): State
    requires ClientEnabled(s)
  {
    if Copying(s.client) then Copy(s) else if Draining(s.client) then Drain(s) else Ask(s)
  }

  predicate Enabled(s: State, a: Act) {
    match a
    case Dm => DmEnabled(s)
    case Client => ClientEnabled(s)
    case Complete => s.outstanding > 0
    case _ => s.client == Idle
  }

  function Apply(s: State, a: Act): State
    requires Enabled(s, a)
  {
    match a
    case Dm => DmAct(s)
    case Client => ClientAct(s)
    case Complete => s.(outstanding := s.outstanding - 1)
    case CallCopy(t) => s.(client := PollFill(t))
    case CallStart => s.(client := StartPoll)
    case CallWait => s.(client := DrainPoll)
    case CallReady => s.(client := AskLock(Ready), hasty := s.stat != NoRequest)
    case CallExit => s.(client := ExitStat)
  }

  predicate Init(s: State) {
    && |s.ring.queue| == SLOTS && s.ring.back == 0 && s.ring.front == 0 && s.ring.fill == 0 && !s.mutex && s.stat == NoRequest && !s.valid
    && s.wfi == 0 && !s.irq && s.outstanding == 0 && s.depth > 0 && s.dm == Top && s.client == Idle
    && s.ring.sent == [] && s.ring.issued == [] && s.ring.retired == 0 && !s.hasty
  }

  ghost predicate Behaviour(trace: seq<State>, acts: seq<Act>) {
    && |trace| == |acts| + 1 && Init(trace[0])
    && forall j :: 0 <= j < |acts| ==> Enabled(trace[j], acts[j]) && trace[j + 1] == Apply(trace[j], acts[j])
  }

  // ----- the ring

  /** The client has seen room and not yet published its slot. */
  predicate Filling(pc: ClientPc) {
    pc.LockCopy? || pc.ReadFront? || pc.Fill? || pc.BumpFill?
  }

  predicate Agree(a: Task, b: Task, fields: seq<Field>, k: nat)
    requires k <= |fields|
  {
    forall j :: 0 <= j < k ==> Load(a, fields[j]) == Load(b, fields[j])
  }

  predicate Counts(s: State) {
    && |s.ring.queue| == SLOTS && s.ring.retired <= |s.ring.issued| <= |s.ring.sent|
    && s.ring.fill == |s.ring.sent| - s.ring.retired && s.ring.fill <= SLOTS
    && |s.ring.issued| == s.ring.retired + (if s.dm.BumpBack? || s.dm.DropFill? then 1 else 0)
    && s.ring.back == (s.ring.retired + (if s.dm.DropFill? then 1 else 0)) % SLOTS
    && (if s.client.BumpFront? then |s.ring.sent| > 0 && s.ring.front == (|s.ring.sent| - 1) % SLOTS else s.ring.front == |s.ring.sent| % SLOTS)
    && (Holding(s.dm) ==> s.ring.fill > 0)
    && (Filling(s.client) ==> s.ring.fill < SLOTS)
  }

  predicate Contents(s: State)
    requires |s.ring.queue| == SLOTS
  {
    && s.ring.issued <= s.ring.sent
    && forall i :: s.ring.retired <= i < |s.ring.sent| ==> View(s.ring.queue[i % SLOTS]) == s.ring.sent[i]
  }

  predicate Reading(s: State)
    requires |s.ring.queue| == SLOTS
  {
    match s.dm
    case ReadTwod(i) => i == s.ring.retired % SLOTS
    case Fetch(i, k) =>
      && i == s.ring.retired % SLOTS && s.got.twod == s.ring.queue[i].twod
      && k < |Reads(s.got.twod)| && Agree(s.got, s.ring.queue[i], Reads(s.got.twod), k)
    case Issue(i) => i == s.ring.retired % SLOTS && View(s.got) == View(s.ring.queue[i])
    case _ => true
  }

  predicate Writing(s: State)
    requires |s.ring.queue| == SLOTS
  {
    match s.client
    case Fill(t, i, k) => i == |s.ring.sent| % SLOTS && k < |Writes(t)| && Agree(s.ring.queue[i], t, Writes(t), k)
    case BumpFill(t, i) => i == |s.ring.sent| % SLOTS && View(s.ring.queue[i]) == View(t)
    case _ => true
  }

  predicate RingOk(s: State) {
    && Counts(s) && Contents(s) && Reading(s) && Writing(s)
  }

  /** Storing one more word of a list of distinct words extends the agreement by that word. */
  lemma Extend(a: Task, b: Task, fields: seq<Field>, k: nat)
    requires k < |fields| && Agree(a, b, fields, k)
    requires forall i, j :: 0 <= i < j < |fields| ==> fields[i] != fields[j]
    ensures Agree(Store(a, fields[k], Load(b, fields[k])), b, fields, k + 1)
  {}

  lemma WrittenView(a: Task, t: Task)
    requires Agree(a, t, Writes(t), |Writes(t)|)
    ensures View(a) == View(t)
  {
    var w := Writes(t);
    assert w[0] == Src && w[1] == Dst && w[2] == Size;
    if t.twod == 0 {
      assert w[3] == Twod && w[4] == Cfg;
    } else {
      assert w[3] == Sstrd && w[4] == Dstrd && w[5] == Nreps && w[6] == Twod && w[7] == Cfg;
    }
  }

  lemma ReadView(a: Task, t: Task)
    requires a.twod == t.twod && Agree(a, t, Reads(t.twod), |Reads(t.twod)|)
    ensures View(a) == View(t)
  {
    var w := Reads(t.twod);
    assert w[0] == Src && w[1] == Dst && w[2] == Size;
    if t.twod == 0 {
      assert w[3] == Cfg;
    } else {
      assert w[3] == Sstrd && w[4] == Dstrd && w[5] == Nreps && w[6] == Cfg;
    }
  }

  /** Acts away from the slots: nothing the ring speaks of changes. */
  lemma RingSame(s: State, s': State)
    requires RingOk(s)
    requires s'.ring == s.ring && s'.got == s.got
    requires s'.dm == s.dm || (Plain(s.dm) && Plain(s'.dm) && (Holding(s'.dm) ==> s.ring.fill > 0))
    requires s'.client == s.client || (Aside(s.client) && Aside(s'.client) && (Filling(s'.client) ==> s.ring.fill < SLOTS))
    ensures RingOk(s')
  {}

  predicate Plain(pc: DmPc) {
    !pc.ReadTwod? && !pc.Fetch? && !pc.Issue? && !pc.BumpBack? && !pc.DropFill?
  }

  predicate Aside(pc: ClientPc) { !pc.Fill? && !pc.BumpFill? && !pc.BumpFront? }

  lemma FetchRing(s: State)
    requires RingOk(s) && s.dm.Fetch?
    ensures RingOk(DmAct(s))
  {
    var Fetch(i, k) := s.dm;
    var s' := DmAct(s);
    var fields := Reads(s.got.twod);
    Extend(s.got, s.ring.queue[i], fields, k);
    assert s'.got.twod == s.got.twod;
    if k + 1 == |fields| {
      ReadView(s'.got, s.ring.queue[i]);
    }
  }

  lemma IssueRing(s: State)
    requires RingOk(s) && s.dm.Issue?
    ensures RingOk(DmAct(s))
  {
    assert View(s.ring.queue[s.ring.retired % SLOTS]) == s.ring.sent[s.ring.retired];
  }

  lemma ReadBackRing(s: State)
    requires RingOk(s) && s.dm.ReadBack?
    ensures RingOk(DmAct(s))
  {}

  lemma ReadTwodRing(s: State)
    requires RingOk(s) && s.dm.ReadTwod?
    ensures RingOk(DmAct(s))
  {}

  lemma BumpBackRing(s: State)
    requires RingOk(s) && s.dm.BumpBack?
    ensures RingOk(DmAct(s))
  {}

  lemma DropFillRing(s: State)
    requires RingOk(s) && s.dm.DropFill?
    ensures RingOk(DmAct(s))
  {}

  lemma RetireRing(s: State)
    requires RingOk(s) && (s.dm.ReadBack? || s.dm.ReadTwod? || s.dm.BumpBack? || s.dm.DropFill?)
    ensures RingOk(DmAct(s))
  {
    match s.dm
    case ReadBack => ReadBackRing(s);
    case ReadTwod(_) => ReadTwodRing(s);
    case BumpBack => BumpBackRing(s);
    case DropFill => DropFillRing(s);
  }

  lemma ReplyFrame(s: State)
    requires Replying(s.dm)
    ensures var s' := Reply(s); s' == s.(dm := s'.dm, stat := s'.stat, valid := s'.valid)
    ensures Replying(Reply(s).dm) || Reply(s).dm.SleepFill? || Reply(s).dm.Stopped?
  {}

  lemma RestFrame(s: State)
    requires Resting(s.dm) && DmEnabled(s)
    ensures var s' := Rest(s); s' == s.(dm := s'.dm, wfi := s'.wfi, irq := s'.irq)
    ensures Resting(Rest(s).dm) || Rest(s).dm.Top?
  {}

  lemma ReplyRing(s: State)
    requires RingOk(s) && Replying(s.dm)
    ensures RingOk(Reply(s))
  {
    ReplyFrame(s);
    RingSame(s, Reply(s));
  }

  lemma RestRing(s: State)
    requires RingOk(s) && Resting(s.dm) && DmEnabled(s)
    ensures RingOk(Rest(s))
  {
    RestFrame(s);
    RingSame(s, Rest(s));
  }

  lemma DmRing(s: State)
    requires RingOk(s) && DmEnabled(s)
    ensures RingOk(DmAct(s))
  {
    if Replying(s.dm) {
      ReplyRing(s);
    } else if Resting(s.dm) {
      RestRing(s);
    } else {
      ServeRing(s);
    }
  }

  lemma ServeRing(s: State)
    requires RingOk(s) && DmEnabled(s) && !Replying(s.dm) && !Resting(s.dm)
    ensures RingOk(DmAct(s))
  {
    if s.dm.Fetch? {
      FetchRing(s);
    } else if s.dm.Issue? {
      IssueRing(s);
    } else if s.dm.Top? || s.dm.WaitDma? {
      RingSame(s, DmAct(s));
    } else {
      RetireRing(s);
    }
  }

  /** The slot being written is none of those the data mover may still read. */
  lemma FreeSlot(s: State, j: nat)
    requires Counts(s) && s.ring.fill < SLOTS && s.ring.retired <= j < |s.ring.sent|
    ensures j % SLOTS != |s.ring.sent| % SLOTS
  {
    SlotsDiffer(j, |s.ring.sent|);
  }

  lemma SlotsDiffer(j: nat, n: nat)
    requires j < n < j + SLOTS
    ensures j % SLOTS != n % SLOTS
  {
    assert n - j == (n / SLOTS - j / SLOTS) * SLOTS + (n % SLOTS - j % SLOTS);
  }

  lemma FillRing(s: State)
    requires RingOk(s) && s.client.Fill?
    ensures RingOk(ClientAct(s))
  {
    var Fill(t, i, k) := s.client;
    var s' := ClientAct(s);
    Extend(s.ring.queue[i], t, Writes(t), k);
    if k + 1 == |Writes(t)| {
      WrittenView(s'.ring.queue[i], t);
    }
    forall j | s.ring.retired <= j < |s.ring.sent| ensures s'.ring.queue[j % SLOTS] == s.ring.queue[j % SLOTS] {
      FreeSlot(s, j);
    }
    if Holding(s.dm) { assert s'.ring.queue[s.ring.retired % SLOTS] == s.ring.queue[s.ring.retired % SLOTS]; }
  }

  lemma ReadFrontRing(s: State)
    requires RingOk(s) && s.client.ReadFront?
    ensures RingOk(ClientAct(s))
  {}

  lemma BumpFillRing(s: State)
    requires RingOk(s) && s.client.BumpFill?
    ensures RingOk(ClientAct(s))
  {}

  lemma NextSlot(n: nat)
    requires n > 0
    ensures ((n - 1) % SLOTS + 1) % SLOTS == n % SLOTS
  {}

  lemma BumpFrontRing(s: State)
    requires RingOk(s) && s.client.BumpFront?
    ensures RingOk(ClientAct(s))
  {
    var s' := ClientAct(s);
    NextSlot(|s.ring.sent|);
    assert s' == s.(client := UnlockCopy, ring := s.ring.(front := |s.ring.sent| % SLOTS));
    RingMoved(s, s');
  }

  /** Only the front index has moved, to where it belongs. */
  lemma RingMoved(s: State, s': State)
    requires RingOk(s) && s.client.BumpFront? && s' == s.(client := UnlockCopy, ring := s.ring.(front := s'.ring.front))
    requires s'.ring.front == |s.ring.sent| % SLOTS
    ensures RingOk(s')
  {}

  lemma PublishRing(s: State)
    requires RingOk(s) && (s.client.ReadFront? || s.client.BumpFill? || s.client.BumpFront?)
    ensures RingOk(ClientAct(s))
  {
    if s.client.ReadFront? {
      ReadFrontRing(s);
    } else if s.client.BumpFill? {
      BumpFillRing(s);
    } else {
      BumpFrontRing(s);
    }
  }

  lemma DrainFrame(s: State)
    requires Draining(s.client)
    ensures var s' := Drain(s); s' == s.(client := s'.client, irq := s'.irq)
    ensures Draining(Drain(s).client) || Drain(s).client.Idle? || Drain(s).client.AskLock?
  {}

  lemma AskFrame(s: State)
    requires ClientEnabled(s) && !Copying(s.client) && !Draining(s.client)
    ensures var s' := Ask(s); s' == s.(client := s'.client, irq := s'.irq, mutex := s'.mutex, stat := s'.stat, valid := s'.valid)
    ensures !Copying(Ask(s).client) && !Draining(Ask(s).client)
  {}

  lemma AsideRing(s: State)
    requires RingOk(s) && Aside(s.client) && !s.client.ReadFront? && ClientEnabled(s)
    ensures RingOk(ClientAct(s))
  {
    if Draining(s.client) { DrainFrame(s); } else if !Copying(s.client) { AskFrame(s); }
    RingSame(s, ClientAct(s));
  }

  lemma ClientRing(s: State)
    requires RingOk(s) && ClientEnabled(s)
    ensures RingOk(ClientAct(s))
  {
    if s.client.Fill? {
      FillRing(s);
    } else if s.client.ReadFront? || s.client.BumpFill? || s.client.BumpFront? {
      PublishRing(s);
    } else {
      AsideRing(s);
    }
  }

  // ----- requests and answers

  /** The three stages of a request: not seen to be answered, answered, and lost. */
  predicate Open(s: State, q: Stat) {
    && s.stat == q && !s.valid && !s.dm.ClearStat?
    && (s.dm.PollBusy? ==> q == WaitIdle) && (s.dm.SetValid? && q == WaitIdle ==> s.outstanding == 0)
  }
  predicate Answered(s: State, q: Stat) {
    && s.valid && (if s.dm.ClearStat? then s.stat == q else s.stat == NoRequest)
    && (q == WaitIdle ==> s.outstanding == 0)
  }
  predicate Lost(s: State) { s.hasty && !s.valid && (s.stat == NoRequest || (s.dm.ClearStat? && s.stat == Ready)) }

  predicate Requests(s: State) {
    && (Answering(s.dm) ==> s.stat != NoRequest)
    && (s.dm.Stopped? ==> Exiting(s.client))
    && match s.client
       case AskLock(q) => Requesting(s, q)
       case AskInvalid(q) => Requesting(s, q)
       case AskStat(q) => Requesting(s, q) && !s.valid
       case AskPoll(q) => Requested(s, q)
       case AskSet(q) => Requested(s, q)
       case AskValid(q) => Requested(s, q)
       case AskUnlock(q) => Settling(s) && (q == WaitIdle ==> s.ring.fill == 0 && s.outstanding == 0)
       case DrainStat => Settling(s) && s.ring.fill == 0
       case ExitPoll => true
       case ExitSet => true
       case Gone => true
       case _ => Settling(s)
  }

  /** No request of the client's is open: at most the data mover has an old one left to clear. */
  predicate Settling(s: State) { s.stat != NoRequest ==> s.dm.ClearStat? && s.stat != Exit }

  predicate Requesting(s: State, q: Stat) {
    && Settling(s) && (q == WaitIdle || q == Ready)
    && (q == WaitIdle ==> s.ring.fill == 0 && s.stat == NoRequest)
    && (q == Ready && s.stat != NoRequest ==> s.hasty)
  }

  predicate Requested(s: State, q: Stat) {
    && (q == WaitIdle || q == Ready) && (q == WaitIdle ==> s.ring.fill == 0)
    && (Open(s, q) || Answered(s, q) || (q == Ready && Lost(s)))
  }

  lemma ServeFrame(s: State)
    requires DmEnabled(s) && Serving(s.dm)
    ensures var s' := Serve(s); s' == s.(dm := s'.dm, ring := s'.ring, got := s'.got, outstanding := s'.outstanding)
    ensures Serving(Serve(s).dm) || Serve(s).dm.CheckStat?
    ensures s.ring.fill == 0 && !Holding(s.dm) ==> Serve(s).ring == s.ring && Serve(s).outstanding == s.outstanding
  {}

  /** Acts of the data mover that do not answer leave the requests alone. */
  lemma AsideRequests(s: State, s': State)
    requires Requests(s) && s' == s.(dm := s'.dm, ring := s'.ring, got := s'.got, outstanding := s'.outstanding, wfi := s'.wfi, irq := s'.irq)
    requires !Answering(s.dm) && !Answering(s'.dm) && !s.dm.Stopped? && !s'.dm.Stopped?
    requires s.ring.fill == 0 ==> s'.ring.fill == 0 && s'.outstanding == s.outstanding
    ensures Requests(s')
  {}

  lemma ReplyRequested(s: State, q: Stat)
    requires Replying(s.dm) && Requested(s, q) && (Answering(s.dm) ==> s.stat != NoRequest)
    ensures Requested(Reply(s), q) && (Answering(Reply(s).dm) ==> Reply(s).stat != NoRequest) && !Reply(s).dm.Stopped?
  {
    if Open(s, q) {
      assert Open(Reply(s), q) || Answered(Reply(s), q);
    } else if Answered(s, q) {
      assert Answered(Reply(s), q);
    } else {
      assert Lost(Reply(s));
    }
  }

  lemma ReplySettling(s: State)
    requires Replying(s.dm) && Settling(s) && (Answering(s.dm) ==> s.stat != NoRequest)
    ensures Settling(Reply(s)) && !Answering(Reply(s).dm) && !Reply(s).dm.Stopped?
    ensures Reply(s).valid == s.valid && (s.stat == NoRequest ==> Reply(s).stat == NoRequest)
  {}

  lemma ReplyRequests(s: State)
    requires Requests(s) && Replying(s.dm)
    ensures Requests(Reply(s))
  {
    ReplyFrame(s);
    if Asked(s.client) {
      ReplyRequested(s, s.client.q);
    } else if !Exiting(s.client) {
      ReplySettling(s);
    }
  }

  lemma ServeRequests(s: State)
    requires Counts(s) && Requests(s) && DmEnabled(s) && Serving(s.dm)
    ensures Requests(Serve(s))
  {
    ServeFrame(s);
    AsideRequests(s, Serve(s));
  }

  lemma RestRequests(s: State)
    requires Requests(s) && DmEnabled(s) && Resting(s.dm)
    ensures Requests(Rest(s))
  {
    RestFrame(s);
    AsideRequests(s, Rest(s));
  }

  lemma DmRequests(s: State)
    requires Counts(s) && Requests(s) && DmEnabled(s)
    ensures Requests(DmAct(s))
  {
    if Serving(s.dm) {
      ServeRequests(s);
    } else if Replying(s.dm) {
      ReplyRequests(s);
    } else {
      RestRequests(s);
    }
  }

  lemma WriteRequest(s: State, q: Stat)
    requires Requesting(s, q) && !s.valid && (Answering(s.dm) ==> s.stat != NoRequest)
    ensures Requested(s.(client := AskPoll(q), stat := q), q)
  {
    var s' := s.(client := AskPoll(q), stat := q);
    if s.stat == NoRequest {
      assert Open(s', q);
    } else {
      assert Lost(s');
    }
  }

  lemma AskingRequests(s: State)
    requires Requests(s) && ClientEnabled(s) && Asking(s.client)
    ensures Requests(Ask(s))
  {
    if s.client.AskStat? {
      WriteRequest(s, s.client.q);
    } else {
      assert Requesting(Ask(s), s.client.q);
    }
  }

  lemma AskedRequests(s: State)
    requires Requests(s) && ClientEnabled(s) && Asked(s.client)
    ensures Requests(Ask(s))
  {
    var q := s.client.q;
    if s.client.AskValid? {
      assert Answered(s, q);
    } else {
      assert Open(s, q) ==> Open(Ask(s), q);
      assert Answered(s, q) ==> Answered(Ask(s), q);
      assert Lost(s) ==> Lost(Ask(s));
    }
  }

  lemma CopyFrame(s: State)
    requires ClientEnabled(s) && Copying(s.client)
    ensures var s' := Copy(s); s' == s.(client := s'.client, mutex := s'.mutex, ring := s'.ring)
    ensures Copying(Copy(s).client) || Copy(s).client.Idle?
  {}

  lemma CopyRequests(s: State)
    requires Requests(s) && ClientEnabled(s) && (Copying(s.client) || Draining(s.client))
    ensures Requests(ClientAct(s))
  {
    if Copying(s.client) { CopyFrame(s); } else { DrainFrame(s); }
    assert Settling(s);
  }

  lemma ClientRequests(s: State)
    requires Requests(s) && ClientEnabled(s)
    ensures Requests(ClientAct(s))
  {
    if Copying(s.client) || Draining(s.client) {
      CopyRequests(s);
    } else if Asking(s.client) {
      AskingRequests(s);
    } else if Asked(s.client) {
      AskedRequests(s);
    } else {
      assert s.client.AskUnlock? || s.client.ExitStat? || s.client.ExitPoll? || s.client.ExitSet?;
    }
  }

  // ----- sleeping and waking

  predicate Owning(pc: ClientPc) {
    || pc.ReadFront? || pc.Fill? || pc.BumpFill? || pc.BumpFront? || pc.UnlockCopy?
    || pc.AskInvalid? || pc.AskStat? || Asked(pc) || pc.AskUnlock?
  }

  /** Once the wake-up is sent, the data mover cannot fall asleep without having looked at what was sent. */
  predicate Waking(s: State) {
    && s.wfi == (if Dozing(s.dm) then 1 else 0)
    && s.mutex == Owning(s.client)
    && s.depth > 0
    && (s.client.DrainFill? && s.ring.fill != 0 ==> s.irq || !(s.dm.SleepStat? || s.dm.BumpWfi? || s.dm.Wfi?))
    && (s.client.AskValid? && s.stat != NoRequest ==> s.irq || !(s.dm.BumpWfi? || s.dm.Wfi?))
  }

  lemma DmWaking(s: State)
    requires Waking(s) && DmEnabled(s)
    ensures Waking(DmAct(s))
  {
    if Serving(s.dm) {
      ServeFrame(s);
    } else if Replying(s.dm) {
      ReplyFrame(s);
    } else {
      RestWaking(s);
    }
  }

  lemma RestWaking(s: State)
    requires Waking(s) && DmEnabled(s) && Resting(s.dm)
    ensures Waking(Rest(s))
  {}

  lemma ClientWaking(s: State)
    requires Waking(s) && ClientEnabled(s)
    ensures Waking(ClientAct(s))
  {
    if Copying(s.client) {
      CopyFrame(s);
      CopyWaking(s);
    } else if Draining(s.client) {
      DrainFrame(s);
    } else {
      AskFrame(s);
    }
  }

  lemma CopyWaking(s: State)
    requires Waking(s) && ClientEnabled(s) && Copying(s.client)
    ensures Waking(Copy(s))
  {}

  ghost predicate Inv(s: State) {
    var inv := RingOk(s) && Requests(s) && Waking(s);
    inv
  }

  lemma CompleteInv(s: State)
    requires Inv(s) && s.outstanding > 0
    ensures Inv(s.(outstanding := s.outstanding - 1))
  {
    var s' := s.(outstanding := s.outstanding - 1);
    RingSame(s, s');
    assert Requests(s');
    assert Waking(s');
  }

  lemma CallRing(s: State, s': State)
    requires RingOk(s) && s.client == Idle && s' == s.(client := s'.client, hasty := s'.hasty)
    requires Aside(s'.client) && !Filling(s'.client)
    ensures RingOk(s')
  {
    RingSame(s, s');
  }

  lemma PlainCallInv(s: State, s': State)
    requires Inv(s) && s.client == Idle && s' == s.(client := s'.client)
    requires s'.client.PollFill? || s'.client.StartPoll? || s'.client.DrainPoll? || s'.client.ExitStat?
    ensures Inv(s')
  {
    CallRing(s, s');
    assert Requests(s');
    assert Waking(s');
  }

  lemma ReadyCallInv(s: State)
    requires Inv(s) && s.client == Idle
    ensures Inv(Apply(s, CallReady))
  {
    var s' := Apply(s, CallReady);
    CallRing(s, s');
    assert Requesting(s', Ready);
    assert Waking(s');
  }

  lemma OtherInv(s: State, a: Act)
    requires Inv(s) && Enabled(s, a) && !a.Dm? && !a.Client?
    ensures Inv(Apply(s, a))
  {
    if a.Complete? {
      CompleteInv(s);
    } else if a.CallReady? {
      ReadyCallInv(s);
    } else {
      PlainCallInv(s, Apply(s, a));
    }
  }

  lemma ActInv(s: State, a: Act)
    requires Inv(s) && Enabled(s, a)
    ensures Inv(Apply(s, a))
  {
    if a.Dm? {
      DmRing(s);
      DmRequests(s);
      DmWaking(s);
    } else if a.Client? {
      ClientRing(s);
      ClientRequests(s);
      ClientWaking(s);
    } else {
      OtherInv(s, a);
    }
  }

  lemma {:induction false} BehaviourInv(trace: seq<State>, acts: seq<Act>, j: nat)
    requires Behaviour(trace, acts) && j < |trace|
    ensures Inv(trace[j])
  {
    if j == 0 {
      assert Inv(trace[0]);
    } else {
      BehaviourInv(trace, acts, j - 1);
      ActInv(trace[j - 1], acts[j - 1]);
    }
  }

  // ----- what the queue promises

  /** The transfers the client asked for, in the order of its calls. */
  function Wanted(acts: seq<Act>): seq<Transfer> {
    if acts == [] then []
    else
      var rest := Wanted(acts[..|acts| - 1]);
      if acts[|acts| - 1].CallCopy? then rest + [View(acts[|acts| - 1].t)] else rest
  }

  predicate Unpublished(pc: ClientPc) { pc.PollFill? || Filling(pc) }

  /** What is published, and what the call in progress is about to publish. */
  function Promised(s: State): seq<Transfer> {
    s.ring.sent + (if Unpublished(s.client) then [View(s.client.t)] else [])
  }

  /** What is published is what the client asked for, up to the call in progress. */
  lemma {:induction false} PublishedInOrder(trace: seq<State>, acts: seq<Act>, j: nat)
    requires Behaviour(trace, acts) && j < |trace|
    ensures Wanted(acts[..j]) == Promised(trace[j])
  {
    if j == 0 {
    } else {
      PublishedInOrder(trace, acts, j - 1);
      assert acts[..j][..j - 1] == acts[..j - 1];
      PublishStep(trace[j - 1], acts[j - 1]);
    }
  }

  lemma PublishStep(s: State, a: Act)
    requires Enabled(s, a)
    ensures Promised(Apply(s, a)) == Promised(s) + (if a.CallCopy? then [View(a.t)] else [])
  {
    if a.Dm? {
      DmSent(s);
    } else if a.Client? {
      ClientSent(s);
    }
  }

  lemma ClientSent(s: State)
    requires ClientEnabled(s)
    ensures Promised(ClientAct(s)) == Promised(s)
  {
    if Draining(s.client) {
      DrainFrame(s);
    } else if Copying(s.client) {
      CopySent(s);
    } else {
      AskFrame(s);
    }
  }

  lemma CopySent(s: State)
    requires ClientEnabled(s) && Copying(s.client)
    ensures Promised(Copy(s)) == Promised(s)
  {}

  lemma DmSent(s: State)
    requires DmEnabled(s)
    ensures DmAct(s).ring.sent == s.ring.sent && DmAct(s).client == s.client
  {
    if Replying(s.dm) { ReplyFrame(s); } else if Resting(s.dm) { RestFrame(s); } else { ServeFrame(s); }
  }

  /** The number of copies called for. */
  function Copies(acts: seq<Act>): nat {
    if acts == [] then 0 else Copies(acts[..|acts| - 1]) + if acts[|acts| - 1].CallCopy? then 1 else 0
  }

  /** Copy number Copies(acts[..p]) is the one that was called by act p. */
  lemma {:induction false} WantedAt(acts: seq<Act>, p: nat)
    requires p < |acts| && acts[p].CallCopy?
    ensures |Wanted(acts)| == Copies(acts) && Copies(acts[..p]) < Copies(acts)
    ensures Wanted(acts)[Copies(acts[..p])] == View(acts[p].t)
    decreases |acts|
  {
    var rest := acts[..|acts| - 1];
    WantedCount(rest);
    if p == |rest| {
      assert acts[..p] == rest;
    } else {
      WantedAt(rest, p);
      assert rest[..p] == acts[..p];
    }
  }

  lemma {:induction false} WantedCount(acts: seq<Act>)
    ensures |Wanted(acts)| == Copies(acts)
  {
    if acts == [] {
    } else {
      WantedCount(acts[..|acts| - 1]);
    }
  }

  /** The copy called by act p is transfer number Copies(acts[..p]) of those published, or is the one in progress. */
  lemma SentAt(trace: seq<State>, acts: seq<Act>, j: nat, p: nat)
    requires Behaviour(trace, acts) && p < j < |trace| && acts[p].CallCopy?
    ensures var i, sent := Copies(acts[..p]), trace[j].ring.sent;
            if i < |sent| then sent[i] == View(acts[p].t) else i == |sent| && Unpublished(trace[j].client)
  {
    PublishedInOrder(trace, acts, j);
    WantedAt(acts[..j], p);
    assert acts[..j][..p] == acts[..p];
  }

  /** What has been published for it is, word for word, what it asked for. */
  lemma PublishedWords(trace: seq<State>, acts: seq<Act>, j: nat, p: nat)
    requires Behaviour(trace, acts) && p < j < |trace| && acts[p].CallCopy?
    ensures Copies(acts[..p]) < |trace[j].ring.sent| ==>
              var t, x := acts[p].t, trace[j].ring.sent[Copies(acts[..p])];
              if t.twod == 0 then x.OneD? && x.src == t.src && x.dst == t.dst && x.size == t.size && x.cfg == t.cfg
              else && x.TwoD? && x.src == t.src && x.dst == t.dst && x.size == t.size && x.cfg == t.cfg
                   && x.sstrd == t.sstrd && x.dstrd == t.dstrd && x.nreps == t.nreps
    ensures Copies(acts[..p]) < |trace[j].ring.sent| || (Copies(acts[..p]) == |trace[j].ring.sent| && Unpublished(trace[j].client))
  {
    SentAt(trace, acts, j, p);
  }

  /** At every memory step of every run: the fill count is within the ring, and the transfers issued so far are a
      prefix of those published: in order, none lost, none duplicated, none torn. What has been issued for the copy that was
      called by act p is, word for word, what it asked for. */
  lemma IssuedInOrder(trace: seq<State>, acts: seq<Act>, j: nat)
    requires Behaviour(trace, acts) && j < |trace|
    ensures trace[j].ring.fill <= SLOTS
    ensures trace[j].ring.issued <= trace[j].ring.sent
    ensures |trace[j].ring.sent| <= |trace[j].ring.issued| + trace[j].ring.fill
    ensures |trace[j].ring.issued| <= Copies(acts[..j])
    ensures forall p: nat :: p < j && acts[p].CallCopy? && Copies(acts[..p]) < |trace[j].ring.issued| ==>
              var t, x := acts[p].t, trace[j].ring.issued[Copies(acts[..p])];
              if t.twod == 0 then x.OneD? && x.src == t.src && x.dst == t.dst && x.size == t.size && x.cfg == t.cfg
              else && x.TwoD? && x.src == t.src && x.dst == t.dst && x.size == t.size && x.cfg == t.cfg
                   && x.sstrd == t.sstrd && x.dstrd == t.dstrd && x.nreps == t.nreps
  {
    BehaviourInv(trace, acts, j);
    PublishedInOrder(trace, acts, j);
    WantedCount(acts[..j]);
    forall p: nat | p < j && acts[p].CallCopy? && Copies(acts[..p]) < |trace[j].ring.issued|
      ensures trace[j].ring.issued[Copies(acts[..p])] == View(acts[p].t)
    {
      SentAt(trace, acts, j, p);
    }
  }

  /** A slot is written only when every task it has held was issued and given back. */
  lemma NoSlotOverwritten(trace: seq<State>, acts: seq<Act>, j: nat, i: nat)
    requires Behaviour(trace, acts) && j < |acts| && acts[j] == Client && trace[j].client.Fill?
    requires i < |trace[j].ring.sent| && i % SLOTS == trace[j].client.slot
    ensures i < trace[j].ring.retired <= |trace[j].ring.issued|
  {
    BehaviourInv(trace, acts, j);
    if trace[j].ring.retired <= i { FreeSlot(trace[j], i); }
  }

  /** When dm_wait returns, everything published has been issued and the engine has finished it. */
  lemma WaitMeansDone(trace: seq<State>, acts: seq<Act>, j: nat)
    requires Behaviour(trace, acts) && j < |acts| && acts[j] == Client && trace[j].client == AskUnlock(WaitIdle)
    ensures trace[j + 1].client == Idle
    ensures trace[j + 1].ring.issued == trace[j + 1].ring.sent == Wanted(acts[..j])
    ensures |trace[j + 1].ring.issued| == Copies(acts[..j]) && trace[j + 1].outstanding == 0
    ensures forall p: nat :: p < j && acts[p].CallCopy? ==>
              && Copies(acts[..p]) < |trace[j + 1].ring.issued|
              && var t, x := acts[p].t, trace[j + 1].ring.issued[Copies(acts[..p])];
                 if t.twod == 0 then x.OneD? && x.src == t.src && x.dst == t.dst && x.size == t.size && x.cfg == t.cfg
                 else && x.TwoD? && x.src == t.src && x.dst == t.dst && x.size == t.size && x.cfg == t.cfg
                      && x.sstrd == t.sstrd && x.dstrd == t.dstrd && x.nreps == t.nreps
  {
    BehaviourInv(trace, acts, j);
    PublishedInOrder(trace, acts, j);
    WantedCount(acts[..j]);
    forall p: nat | p < j && acts[p].CallCopy?
      ensures Copies(acts[..p]) < |trace[j + 1].ring.issued| && trace[j + 1].ring.issued[Copies(acts[..p])] == View(acts[p].t)
    {
      SentAt(trace, acts, j, p);
    }
  }

  // ----- when it hangs

  /** The client is in a call and neither core nor the engine can move. */
  predicate Stuck(s: State) {
    s.client != Idle && s.client != Gone && !ClientEnabled(s) && !DmEnabled(s) && s.outstanding == 0
  }

  predicate Asleep(s: State) { s.dm == Wfi && !s.irq && s.outstanding == 0 }

  /** A fifth copy on a full ring that nobody told the data mover about. */
  predicate FullAsleep(s: State) { s.client.PollFill? && s.ring.fill == SLOTS && Asleep(s) }

  /** The request of dm_wait_ready was wiped out by the clearing of the one before. */
  predicate ReadyLost(s: State) { s.client == AskValid(Ready) && s.hasty && !s.valid && s.stat == NoRequest && Asleep(s) }

  /** dm_exit waits for the data mover to sleep, but it has already left. */
  predicate ExitHang(s: State) { s.client == ExitPoll && s.dm == Stopped && s.wfi == 0 && s.outstanding == 0 }

  /** Where a run can stop inside a call. In particular never inside dm_start or dm_wait. */
  lemma StuckExactly(trace: seq<State>, acts: seq<Act>, j: nat)
    requires Behaviour(trace, acts) && j < |trace|
    ensures Stuck(trace[j]) <==> FullAsleep(trace[j]) || ReadyLost(trace[j]) || ExitHang(trace[j])
  {
    BehaviourInv(trace, acts, j);
    StuckState(trace[j]);
  }

  lemma StuckState(s: State)
    requires Inv(s)
    ensures Stuck(s) <==> FullAsleep(s) || ReadyLost(s) || ExitHang(s)
  {
    if Stuck(s) {
      assert s.dm == Wfi || s.dm == Stopped;
      if s.dm == Wfi {
        assert s.wfi == 1;
        StuckAsleep(s);
      }
    }
  }

  lemma StuckAsleep(s: State)
    requires Inv(s) && Stuck(s) && s.dm == Wfi
    ensures FullAsleep(s) || ReadyLost(s)
  {
    assert s.client.PollFill? || s.client.LockCopy? || s.client.DrainFill? || s.client.DrainStat? || s.client.AskLock? || s.client.AskValid? || s.client.Fill?;
  }

  // ----- each of the three happens

  ghost predicate Reachable(s: State) {
    exists trace: seq<State>, acts: seq<Act> :: Behaviour(trace, acts) && trace[|acts|] == s
  }

  lemma Reached(s: State, a: Act)
    requires Reachable(s) && Enabled(s, a)
    ensures Reachable(Apply(s, a))
  {
    var trace: seq<State>, acts: seq<Act> :| Behaviour(trace, acts) && trace[|acts|] == s;
    var trace', acts' := trace + [Apply(s, a)], acts + [a];
    assert Behaviour(trace', acts') && trace'[|acts'|] == Apply(s, a);
  }

  lemma ClientReached(s: State, s': State)
    requires Reachable(s) && ClientEnabled(s) && s' == ClientAct(s)
    ensures Reachable(s')
  {
    Reached(s, Client);
  }

  lemma Start(t: Task) returns (s: State)
    ensures Reachable(s) && s == State(Ring([t, t, t, t], 0, 0, 0, [], [], 0), false, NoRequest, false, 0, false, 0, 1, Top, t, Idle, false)
  {
    s := State(Ring([t, t, t, t], 0, 0, 0, [], [], 0), false, NoRequest, false, 0, false, 0, 1, Top, t, Idle, false);
    var trace, acts: seq<Act> := [s], [];
    assert Behaviour(trace, acts) && trace[|acts|] == s;
  }

  /** With nothing to do, the data mover goes to sleep. */
  lemma Doze(s: State) returns (s': State)
    requires Reachable(s) && s.dm == SleepFill && s.ring.fill == 0 && s.stat == NoRequest
    ensures Reachable(s') && s' == s.(dm := Wfi, wfi := s.wfi + 1)
  {
    var x := LookOnce(s);
    Reached(x, Dm);
    s' := x.(dm := Wfi, wfi := s.wfi + 1);
  }

  lemma LookOnce(s: State) returns (s': State)
    requires Reachable(s) && s.dm == SleepFill && s.ring.fill == 0 && s.stat == NoRequest
    ensures Reachable(s') && s' == s.(dm := BumpWfi)
  {
    Reached(s, Dm);
    var x := s.(dm := SleepStat);
    Reached(x, Dm);
    s' := x.(dm := BumpWfi);
  }

  /** Woken with an empty ring, it goes on to look for a request. */
  lemma Rouse(s: State) returns (s': State)
    requires Reachable(s) && s.dm == Wfi && s.irq && s.wfi == 1 && s.ring.fill == 0
    ensures Reachable(s') && s' == s.(dm := CheckStat, irq := false, wfi := 0)
  {
    var x := ClearInterrupt(s);
    Reached(x, Dm);
    x := x.(dm := Top, wfi := 0);
    Reached(x, Dm);
    s' := x.(dm := CheckStat);
  }

  lemma ClearInterrupt(s: State) returns (s': State)
    requires Reachable(s) && s.dm == Wfi && s.irq
    ensures Reachable(s') && s' == s.(dm := DropWfi, irq := false)
  {
    Reached(s, Dm);
    var x := s.(dm := ClearIrq);
    Reached(x, Dm);
    s' := x.(dm := DropWfi, irq := false);
  }

  lemma StartAsleep(t: Task) returns (s: State)
    ensures Reachable(s) && s.dm == Wfi && s.wfi == 1 && s.client == Idle && s.ring.fill == 0 && |s.ring.queue| == SLOTS && s.ring.front == 0
    ensures !s.mutex && s.stat == NoRequest && !s.valid && !s.irq && s.outstanding == 0 && !s.hasty
  {
    var s0 := Start(t);
    Reached(s0, Dm);
    var s1 := s0.(dm := CheckStat);
    Reached(s1, Dm);
    s := Doze(s1.(dm := SleepFill));
  }

  lemma OpenCopy(s: State, t: Task) returns (s': State)
    requires Reachable(s) && s.client == Idle && !s.mutex && s.ring.fill < SLOTS
    ensures Reachable(s') && s' == s.(client := Fill(t, s.ring.front, 0), mutex := true)
  {
    Reached(s, CallCopy(t));
    var s1 := s.(client := PollFill(t));
    Reached(s1, Client);
    var s2 := s1.(client := LockCopy(t));
    Reached(s2, Client);
    var s3 := s2.(client := ReadFront(t), mutex := true);
    Reached(s3, Client);
    s' := s3.(client := Fill(t, s.ring.front, 0));
  }

  lemma WriteWord(s: State)
    requires Reachable(s) && s.client.Fill? && s.client.slot < |s.ring.queue| && s.client.k < |Writes(s.client.t)|
    ensures var Fill(t, i, k) := s.client;
            var s' := ClientAct(s);
            && Reachable(s') && s'.client == (if k + 1 < |Writes(t)| then Fill(t, i, k + 1) else BumpFill(t, i))
            && |s'.ring.queue| == |s.ring.queue| && s'.ring.front == s.ring.front && s'.ring.fill == s.ring.fill
            && s'.dm == s.dm && s'.irq == s.irq && s'.outstanding == s.outstanding
  {
    Reached(s, Client);
  }

  /** One more copy while the data mover sleeps. */
  lemma CopyAsleep(s: State, t: Task) returns (s': State)
    requires Reachable(s) && s.client == Idle && !s.mutex && s.ring.fill < SLOTS && t.twod == 0
    requires |s.ring.queue| == SLOTS && s.ring.front < SLOTS
    ensures Reachable(s') && s'.client == Idle && !s'.mutex && s'.ring.fill == s.ring.fill + 1
    ensures |s'.ring.queue| == SLOTS && s'.ring.front < SLOTS
    ensures s'.dm == s.dm && s'.irq == s.irq && s'.outstanding == s.outstanding
  {
    var x := OpenCopy(s, t);
    x := WriteWords(x, t, 0);
    Publish(x);
    s' := ClientAct(ClientAct(ClientAct(x)));
  }

  lemma {:induction false} WriteWords(s: State, t: Task, k: nat) returns (s': State)
    requires Reachable(s) && t.twod == 0 && k < |Writes(t)| && s.client == Fill(t, s.ring.front, k)
    requires |s.ring.queue| == SLOTS && s.ring.front < SLOTS
    ensures Reachable(s') && s'.client == BumpFill(t, s.ring.front)
    ensures |s'.ring.queue| == SLOTS && s'.ring.front == s.ring.front && s'.ring.fill == s.ring.fill
    ensures s'.dm == s.dm && s'.irq == s.irq && s'.outstanding == s.outstanding
    decreases |Writes(t)| - k
  {
    WriteWord(s);
    s' := ClientAct(s);
    if k + 1 >= |Writes(t)| {
    } else {
      s' := WriteWords(s', t, k + 1);
    }
  }

  lemma Publish(x: State)
    requires Reachable(x) && x.client.BumpFill?
    ensures ClientEnabled(x) && ClientEnabled(ClientAct(x)) && ClientEnabled(ClientAct(ClientAct(x)))
    ensures var y := ClientAct(ClientAct(ClientAct(x)));
            && Reachable(y) && y.client == Idle && !y.mutex && y.ring.fill == x.ring.fill + 1
            && y.ring.queue == x.ring.queue && y.ring.front < SLOTS
            && y.dm == x.dm && y.irq == x.irq && y.outstanding == x.outstanding
  {
    Reached(x, Client);
    var x1 := ClientAct(x);
    Reached(x1, Client);
    var x2 := ClientAct(x1);
    Reached(x2, Client);
  }

  lemma FullAsleepHappens(t: Task) returns (s: State)
    requires t.twod == 0
    ensures Reachable(s) && FullAsleep(s) && Stuck(s)
  {
    var x := StartAsleep(t);
    x := CopyAsleep(x, t);
    x := CopyAsleep(x, t);
    x := CopyAsleep(x, t);
    x := CopyAsleep(x, t);
    Reached(x, CallCopy(t));
    s := x.(client := PollFill(t));
  }

  lemma StartExit(t: Task) returns (s: State)
    ensures Reachable(s) && s.client == ExitPoll && s.stat == Exit && s.dm == Top && s.ring.fill == 0 && s.wfi == 0 && s.outstanding == 0
  {
    var x := Start(t);
    Reached(x, CallExit);
    x := x.(client := ExitStat);
    Reached(x, Client);
    s := x.(client := ExitPoll, stat := Exit);
  }

  lemma ExitHangHappens(t: Task) returns (s: State)
    ensures Reachable(s) && ExitHang(s) && Stuck(s)
  {
    var x := StartExit(t);
    x := Leave(x);
    Reached(x, Dm);
    s := x.(dm := Stopped);
    HangIsStuck(s);
  }

  lemma HangIsStuck(s: State)
    requires ExitHang(s)
    ensures Stuck(s)
  {}

  lemma Leave(s: State) returns (s': State)
    requires Reachable(s) && s.dm == Top && s.ring.fill == 0 && s.stat == Exit
    ensures Reachable(s') && s' == s.(dm := Switch)
  {
    Reached(s, Dm);
    var x := s.(dm := CheckStat);
    Reached(x, Dm);
    s' := x.(dm := Switch);
  }

  /** Calling dm_wait_ready from the idle client: up to the request being written. */
  lemma WriteReady(s: State) returns (s': State)
    requires Reachable(s) && s.client == Idle && !s.mutex
    ensures Reachable(s') && s' == s.(client := AskPoll(Ready), mutex := true, valid := false, stat := Ready, hasty := s.stat != NoRequest)
  {
    var x := LockReady(s);
    Reached(x, Client);
    x := x.(client := AskStat(Ready), valid := false);
    Reached(x, Client);
    s' := x.(client := AskPoll(Ready), stat := Ready);
  }

  lemma LockReady(s: State) returns (s': State)
    requires Reachable(s) && s.client == Idle && !s.mutex
    ensures Reachable(s') && s' == s.(client := AskInvalid(Ready), mutex := true, hasty := s.stat != NoRequest)
  {
    Reached(s, CallReady);
    var x := s.(client := AskLock(Ready), hasty := s.stat != NoRequest);
    Reached(x, Client);
    s' := x.(client := AskInvalid(Ready), mutex := true);
  }

  /** ... and the wake-up that follows. */
  lemma WakeReady(s: State) returns (s': State)
    requires Reachable(s) && s.client == AskPoll(Ready) && s.wfi == 1
    ensures Reachable(s') && s' == s.(client := AskValid(Ready), irq := true)
  {
    var x := s.(client := AskSet(Ready));
    ClientReached(s, x);
    s' := x.(client := AskValid(Ready), irq := true);
    ClientReached(x, s');
  }

  lemma SayReady(s: State) returns (s': State)
    requires Reachable(s) && s.dm == CheckStat && s.stat == Ready
    ensures Reachable(s') && s' == s.(dm := ClearStat, valid := true)
  {
    Reached(s, Dm);
    var x := s.(dm := Switch);
    Reached(x, Dm);
    x := x.(dm := SetValid);
    Reached(x, Dm);
    s' := x.(dm := ClearStat, valid := true);
  }

  /** The data mover answers and the client returns before the request word is cleared. */
  lemma AnswerReady(s: State) returns (s': State)
    requires Reachable(s) && s.dm == CheckStat && s.stat == Ready && s.client == AskValid(Ready)
    ensures Reachable(s') && s' == s.(dm := ClearStat, valid := true, client := Idle, mutex := false)
  {
    var x := SayReady(s);
    var y := x.(client := AskUnlock(Ready));
    ClientReached(x, y);
    s' := y.(client := Idle, mutex := false);
    ClientReached(y, s');
  }

  lemma ReadyLostHappens(t: Task) returns (s: State)
    ensures Reachable(s) && ReadyLost(s) && Stuck(s)
  {
    var x := RequestLost(t);
    Reached(x, Dm);
    x := x.(dm := SleepFill);
    s := Doze(x);
    LostIsStuck(s);
  }

  lemma LostIsStuck(s: State)
    requires ReadyLost(s)
    ensures Stuck(s)
  {}

  /** Clearing the first request clears the second, and the data mover finds none when it is woken. */
  lemma RequestLost(t: Task) returns (s: State)
    ensures Reachable(s) && s.dm == CheckStat && s.stat == NoRequest && s.ring.fill == 0 && s.client == AskValid(Ready)
    ensures !s.valid && s.hasty && !s.irq && s.outstanding == 0
  {
    var x := HastyReady(t);
    Reached(x, Dm);
    x := x.(dm := SleepFill, stat := NoRequest);
    x := Doze(x);
    x := WakeReady(x);
    s := Rouse(x);
  }

  /** A second call is under way while the first one's request is still to be cleared. */
  lemma HastyReady(t: Task) returns (s: State)
    ensures Reachable(s) && s.dm == ClearStat && s.wfi == 0 && s.client == AskPoll(Ready) && s.ring.fill == 0 && !s.valid && s.hasty
    ensures s.mutex && s.stat == Ready && !s.irq && s.outstanding == 0
  {
    var x := StartAsleep(t);
    x := WriteReady(x);
    x := WakeReady(x);
    x := Rouse(x);
    x := AnswerReady(x);
    s := WriteReady(x);
  }
}
