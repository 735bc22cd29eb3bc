/** Any number of threads calling the C API at once. The registry is guarded by a shared mutex, every slot by a mutex
    of its own, every client by its stub mutex; a call moves through the points between which another thread may run.
    Slots are objects: erasing one destroys it, and an RPC works with a raw pointer to it. A subscription hands items to
    callbacks, which may call the API again. */
module Locking {
  import opened Messages
  import opened Registry

  type SlotId = nat

  // ---- what the threads share ----

  /** `upsf_slots_mutex`: one writer, or any number of readers. */
  datatype RwLock = RwLock(writer: Option<Tid>, readers: set<Tid>)

  /** `upsf_slots`, and the slot objects that exist. */
  datatype Heap = Heap(slots: map<Tid, SlotId>, live: map<SlotId, Addr>, next: SlotId)

  /** A mutex in every slot, or in every client: by slot, the thread that holds it. */
  type Mutexes = map<SlotId, Tid>

  datatype Shared = Shared(lock: RwLock, heap: Heap, slotMutex: Mutexes, stubMutex: Mutexes, history: seq<Event>)

  /** What `operator[]` hands out for a missing key: a null pointer. */
  const NULL: SlotId := 0
  const NOWHERE := Addr("", 0)

  const START := Shared(RwLock(None, {}), Heap(map[], map[], 1), map[], map[], [])

  // ---- what one thread does ----

  /** Where a thread is inside a call. `Want` is before the registry lock; an RPC then finds its slot, takes the raw
      pointer, locks the slot, locks the stub, sends, and lets go in reverse. A subscription waits in `Read` for the
      next item and runs a callback for it. */
  datatype Pc =
    | OpenWant(addr: Addr)
    | OpenIn(addr: Addr)
    | OpenOut
    | CloseWant
    | CloseIn
    | CloseOut
    | ExistsWant
    | ExistsIn
    | CallWant
    | CallIn
    | CallFound
    | CallSlot(slot: SlotId)
    | CallLocked(slot: SlotId)
    | CallStub(slot: SlotId)
    | CallSent(slot: SlotId)
    | CallUnstub(slot: SlotId)
    | SharedOut
    | SubRead
    | SubCallback

  /** The shared state after a step, and where the thread is then: None once the call has returned. */
  datatype Effect = Effect(g: Shared, pc: Option<Pc>)

  /** The next step of a thread inside a call; None while it has to wait for a lock, or for the stream. */
  function Next(g: Shared, t: Tid, pc: Pc): Option<Effect> {
    match pc
    case OpenWant(a) => Exclusive(g, t, OpenIn(a))
    case OpenIn(a) =>
      Some(Effect(g.(heap := OpenHeap(g.heap, t, a), history := g.history + [DidOpen(t, a)]), Some(OpenOut)))
    case OpenOut => Some(Effect(g.(lock := g.lock.(writer := None)), None))
    case CloseWant => Exclusive(g, t, CloseIn)
    case CloseIn =>
      var rc := if t in g.heap.slots then 0 else -1;
      Some(Effect(g.(heap := CloseHeap(g.heap, t), history := g.history + [DidClose(t, rc)]), Some(CloseOut)))
    case CloseOut => Some(Effect(g.(lock := g.lock.(writer := None)), None))
    case ExistsWant => Share(g, t, ExistsIn)
    case ExistsIn =>
      var rc := if t in g.heap.slots then 1 else 0;
      Some(Effect(g.(history := g.history + [DidExists(t, rc)]), Some(SharedOut)))
    case CallWant => Share(g, t, CallIn)
    case CallIn =>
      if t in g.heap.slots then Some(Effect(g, Some(CallFound)))
      else Some(Effect(g.(history := g.history + [DidMiss(t)]), Some(SharedOut)))
    case CallFound => Some(Pointer(g, t))
    case CallSlot(x) =>
      if x in g.slotMutex then None
      else Some(Effect(g.(slotMutex := g.slotMutex[x := t]), Some(CallLocked(x))))
    case CallLocked(x) =>
      if x in g.stubMutex then None
      else Some(Effect(g.(stubMutex := g.stubMutex[x := t]), Some(CallStub(x))))
    case CallStub(x) =>
      Some(Effect(g.(history := g.history + [DidSend(t, AddrOf(g.heap, x))]), Some(CallSent(x))))
    case CallSent(x) => Some(Effect(g.(stubMutex := g.stubMutex - {x}), Some(CallUnstub(x))))
    case CallUnstub(x) => Some(Effect(g.(slotMutex := g.slotMutex - {x}), Some(SharedOut)))
    case SharedOut => Some(Effect(g.(lock := g.lock.(readers := g.lock.readers - {t})), None))
    case SubRead => None
    case SubCallback => Some(Effect(g, Some(SubRead)))
  }

  function Exclusive(g: Shared, t: Tid, pc: Pc): Option<Effect> {
    if g.lock.writer.Some? || g.lock.readers != {} then None
    else Some(Effect(g.(lock := g.lock.(writer := Some(t))), Some(pc)))
  }

  function Share(g: Shared, t: Tid, pc: Pc): Option<Effect> {
    if g.lock.writer.Some? then None
    else Some(Effect(g.(lock := g.lock.(readers := g.lock.readers + {t})), Some(pc)))
  }

  /** find, and for a new thread a new slot. */
  function OpenHeap(h: Heap, t: Tid, a: Addr): Heap {
    if t in h.slots then h else Heap(h.slots[t := h.next], h.live[h.next := a], h.next + 1)
  }

  /** find, and erase: the table held the only reference, so the slot is destroyed with its entry. */
  function CloseHeap(h: Heap, t: Tid): Heap {
    if t in h.slots then Heap(h.slots - {t}, h.live - {h.slots[t]}, h.next) else h
  }

  /** `upsf_slots[tid].get()`, which inserts a null pointer when the key is missing. */
  function Pointer(g: Shared, t: Tid): Effect {
    if t in g.heap.slots then Effect(g, Some(CallSlot(g.heap.slots[t])))
    else Effect(g.(heap := g.heap.(slots := g.heap.slots[t := NULL])), Some(CallSlot(NULL)))
  }

  function AddrOf(h: Heap, x: SlotId): Addr {
    if x in h.live then h.live[x] else NOWHERE
  }

  // ---- runs ----

  /** `pcs` has the threads that are inside a call; `under` counts the callbacks a thread has interrupted, one inside
      the other, to make the call it is in. */
  datatype State = State(g: Shared, pcs: map<Tid, Pc>, under: map<Tid, nat>)

  datatype Call = Open(addr: Addr) | Close | Exists | Rpc | Subscribe

  function EntryOf(call: Call): Pc {
    match call
    case Open(a) => OpenWant(a)
    case Close => CloseWant
    case Exists => ExistsWant
    case Rpc => CallWant
    case Subscribe => SubRead
  }

  /** A thread begins a call, from outside or in a callback; it makes a step; the stream of its subscription delivers an
      item there is a callback for; or that stream fails. */
  datatype Act =
    | Begin(t: Tid, call: Call)
    | Step(t: Tid)
    | Deliver(t: Tid)
    | Fail(t: Tid)

  function Under(s: State, t: Tid): nat {
    if t in s.under then s.under[t] else 0
  }

  /** A call that returns goes back to the callback that made it, or leaves the library. */
  function Returned(s: State, t: Tid): State {
    if Under(s, t) > 0 then s.(pcs := s.pcs[t := SubCallback], under := s.under[t := Under(s, t) - 1])
    else s.(pcs := s.pcs - {t})
  }

  function Placed(s: State, t: Tid, e: Effect): State {
    match e.pc
    case Some(pc) => s.(g := e.g, pcs := s.pcs[t := pc])
    case None => Returned(s.(g := e.g), t)
  }

  function Do(s: State, act: Act): Option<State> {
    var at := At(s, act.t);
    match act
    case Begin(t, call) =>
      if at.None? then Some(s.(pcs := s.pcs[t := EntryOf(call)]))
      else if at.value.SubCallback? then
        Some(s.(pcs := s.pcs[t := EntryOf(call)], under := s.under[t := Under(s, t) + 1]))
      else None
    case Step(t) =>
      if at.None? then None
      else
        (match Next(s.g, t, at.value)
         case None => None
         case Some(e) => Some(Placed(s, t, e)))
    case Deliver(t) => if at == Some(SubRead) then Some(s.(pcs := s.pcs[t := SubCallback])) else None
    case Fail(t) => if at == Some(SubRead) then Some(Returned(s, t)) else None
  }

  /** Any interleaving whatsoever; None when some act was not possible. */
  function Run(acts: seq<Act>): Option<State> {
    if acts == [] then Some(State(START, map[], map[]))
    else
      match Run(acts[..|acts| - 1])
      case None => None
      case Some(s) => Do(s, acts[|acts| - 1])
  }

  // ---- the invariant ----

  predicate Writing(pc: Pc) {
    pc.OpenIn? || pc.OpenOut? || pc.CloseIn? || pc.CloseOut?
  }

  predicate Wanting(pc: Pc) {
    pc.OpenWant? || pc.CloseWant? || pc.ExistsWant? || pc.CallWant?
  }

  predicate Subscribed(pc: Pc) {
    pc.SubRead? || pc.SubCallback?
  }

  /** Inside the shared lock. */
  predicate Reading(pc: Pc) {
    !Writing(pc) && !Wanting(pc) && !Subscribed(pc)
  }

  /** Not inside the registry lock: outside every call, before the lock, or in a subscription. */
  predicate Away(pc: Option<Pc>) {
    pc.None? || Wanting(pc.value) || Subscribed(pc.value)
  }

  /** A raw pointer is held. */
  predicate Pointing(pc: Pc) {
    pc.CallSlot? || pc.CallLocked? || pc.CallStub? || pc.CallSent? || pc.CallUnstub?
  }

  predicate HoldsSlot(pc: Pc) {
    pc.CallLocked? || pc.CallStub? || pc.CallSent? || pc.CallUnstub?
  }

  predicate HoldsStub(pc: Pc) {
    pc.CallStub? || pc.CallSent?
  }

  /** What the registry lock must say about a thread at `pc`, or about one outside every call. */
  predicate LockFits(lock: RwLock, t: Tid, pc: Option<Pc>) {
    && (lock.writer == Some(t) <==> pc.Some? && Writing(pc.value))
    && (t in lock.readers <==> pc.Some? && Reading(pc.value))
  }

  /** The raw pointer in use is the registered slot of the thread that uses it. */
  predicate PointerFits(heap: Heap, t: Tid, pc: Option<Pc>) {
    && (pc.Some? && Pointing(pc.value) ==> t in heap.slots && pc.value.slot == heap.slots[t])
    && (pc.Some? && pc.value.CallFound? ==> t in heap.slots)
  }

  /** A thread holds the inner mutexes its position says, and no others. */
  predicate MutexesFit(g: Shared, t: Tid, pc: Option<Pc>) {
    && (forall x | x in g.slotMutex && g.slotMutex[x] == t :: pc.Some? && HoldsSlot(pc.value) && pc.value.slot == x)
    && (forall x | x in g.stubMutex && g.stubMutex[x] == t :: pc.Some? && HoldsStub(pc.value) && pc.value.slot == x)
    && (pc.Some? && HoldsSlot(pc.value) ==> pc.value.slot in g.slotMutex && g.slotMutex[pc.value.slot] == t)
    && (pc.Some? && HoldsStub(pc.value) ==> pc.value.slot in g.stubMutex && g.stubMutex[pc.value.slot] == t)
  }

  function At(s: State, t: Tid): Option<Pc> {
    if t in s.pcs then Some(s.pcs[t]) else None
  }

  /** Every thread has its own slot object, never a null one. */
  ghost predicate Objects(h: Heap) {
    && (forall t | t in h.slots :: h.slots[t] in h.live)
    && (forall x | x in h.live :: NULL < x < h.next)
    && (forall t, u | t in h.slots && u in h.slots && h.slots[t] == h.slots[u] :: t == u)
    && NULL < h.next
  }

  /** The table as its addresses. */
  function Addresses(h: Heap): Table
    requires forall t | t in h.slots :: h.slots[t] in h.live
  {
    map t | t in h.slots :: h.live[h.slots[t]]
  }

  /** The table is the one the sequential operations leave behind, and everything answered as they do. */
  ghost predicate History(g: Shared)
    requires Objects(g.heap)
  {
    Addresses(g.heap) == Replay(g.history) && Lawful(g.history)
  }

  ghost predicate Fits(g: Shared, t: Tid, pc: Option<Pc>) {
    LockFits(g.lock, t, pc) && PointerFits(g.heap, t, pc) && MutexesFit(g, t, pc)
  }

  ghost predicate Inv(s: State) {
    && (s.g.lock.writer.Some? ==> s.g.lock.readers == {})
    && (forall t: Tid :: Fits(s.g, t, At(s, t)))
    && Objects(s.g.heap)
    && History(s.g)
  }

  // ---- what one step does to each part ----

  lemma LockAfter(g: Shared, t: Tid, pc: Pc, e: Effect)
    requires Next(g, t, pc) == Some(e) && LockFits(g.lock, t, Some(pc))
    requires g.lock.writer.Some? ==> g.lock.readers == {}
    ensures e.g.lock.writer.Some? ==> e.g.lock.readers == {}
    ensures LockFits(e.g.lock, t, e.pc)
    ensures forall u | u != t ::
              && (e.g.lock.writer == Some(u) <==> g.lock.writer == Some(u))
              && (u in e.g.lock.readers <==> u in g.lock.readers)
  {
  }

  /** A step leaves the table entries of the other threads alone. */
  lemma PointerAfter(g: Shared, t: Tid, pc: Pc, e: Effect)
    requires Next(g, t, pc) == Some(e) && PointerFits(g.heap, t, Some(pc))
    ensures PointerFits(e.g.heap, t, e.pc)
    ensures forall u | u != t ::
              && (u in e.g.heap.slots <==> u in g.heap.slots)
              && (u in g.heap.slots ==> e.g.heap.slots[u] == g.heap.slots[u])
  {
  }

  lemma MutexesAfter(g: Shared, t: Tid, pc: Pc, e: Effect)
    requires Next(g, t, pc) == Some(e) && MutexesFit(g, t, Some(pc))
    ensures MutexesFit(e.g, t, e.pc)
    ensures OthersKeep(g.slotMutex, e.g.slotMutex, t) && OthersKeep(g.stubMutex, e.g.stubMutex, t)
  {
    if HoldsSlot(pc) || pc.CallSlot? {
      InnerMutexes(g, t, pc, e);
    } else {
      assert e.g.slotMutex == g.slotMutex && e.g.stubMutex == g.stubMutex;
      assert e.pc.Some? ==> !HoldsSlot(e.pc.value);
      hide Next;
    }
  }

  lemma InnerMutexes(g: Shared, t: Tid, pc: Pc, e: Effect)
    requires Next(g, t, pc) == Some(e) && MutexesFit(g, t, Some(pc)) && (HoldsSlot(pc) || pc.CallSlot?)
    ensures MutexesFit(e.g, t, e.pc)
    ensures OthersKeep(g.slotMutex, e.g.slotMutex, t) && OthersKeep(g.stubMutex, e.g.stubMutex, t)
  {
  }

  /** No mutex of a thread other than `t` was taken or released. */
  ghost predicate OthersKeep(m: Mutexes, m': Mutexes, t: Tid) {
    && (forall x | x in m && m[x] != t :: x in m' && m'[x] == m[x])
    && (forall x | x in m' && m'[x] != t :: x in m && m[x] == m'[x])
  }

  /** The step that opens does to the table what the sequential operation does; so does the one that closes, and the
      slot it destroys is nobody else's. */
  lemma OpenRefines(h: Heap, t: Tid, a: Addr)
    requires Objects(h)
    ensures Objects(OpenHeap(h, t, a)) && Addresses(OpenHeap(h, t, a)) == Opened(Addresses(h), t, a)
  {
  }

  lemma CloseRefines(h: Heap, t: Tid)
    requires Objects(h)
    ensures Objects(CloseHeap(h, t)) && Addresses(CloseHeap(h, t)) == Closed(Addresses(h), t)
  {
  }

  /** An event that did to the table what its sequential operation does, and answered as that does, may be added to the
      history. */
  lemma Recorded(g: Shared, h': Heap, e: Event)
    requires Objects(g.heap) && Objects(h') && History(g)
    requires Addresses(h') == After(Addresses(g.heap), e) && Answers(e, Entry(Addresses(g.heap), e.t))
    ensures History(g.(heap := h', history := g.history + [e]))
  {
    LawfulPush(g.history, e);
  }

  lemma HistoryAfter(g: Shared, t: Tid, pc: Pc, e: Effect)
    requires Next(g, t, pc) == Some(e) && PointerFits(g.heap, t, Some(pc)) && Objects(g.heap) && History(g)
    ensures Objects(e.g.heap) && History(e.g)
  {
    hide Objects, Addresses, Replay, Lawful, Opened, Closed, OpenHeap, CloseHeap;
    SlotAddress(g.heap, t);
    match pc {
      case OpenIn(a) =>
        OpenRefines(g.heap, t, a);
        Recorded(g, e.g.heap, DidOpen(t, a));
      case CloseIn =>
        CloseRefines(g.heap, t);
        Recorded(g, e.g.heap, DidClose(t, if t in g.heap.slots then 0 else -1));
      case ExistsIn => Recorded(g, e.g.heap, DidExists(t, if t in g.heap.slots then 1 else 0));
      case CallIn =>
        if t !in g.heap.slots {
          Recorded(g, e.g.heap, DidMiss(t));
        }
      case CallStub(x) => Recorded(g, e.g.heap, DidSend(t, AddrOf(g.heap, x)));
      case _ =>
    }
  }

  lemma SlotAddress(h: Heap, t: Tid)
    requires Objects(h)
    ensures Entry(Addresses(h), t) == if t in h.slots then Some(AddrOf(h, h.slots[t])) else None
  {
  }

  /** A step keeps what the invariant says about the thread that steps and about what is shared. */
  lemma OwnAfter(g: Shared, t: Tid, pc: Pc, e: Effect)
    requires Next(g, t, pc) == Some(e) && Fits(g, t, Some(pc)) && Objects(g.heap) && History(g)
    requires g.lock.writer.Some? ==> g.lock.readers == {}
    ensures Fits(e.g, t, e.pc) && Objects(e.g.heap) && History(e.g)
    ensures e.g.lock.writer.Some? ==> e.g.lock.readers == {}
  {
    hide Next, LockFits, PointerFits, MutexesFit, Objects, History;
    LockAfter(g, t, pc, e);
    PointerAfter(g, t, pc, e);
    MutexesAfter(g, t, pc, e);
    HistoryAfter(g, t, pc, e);
  }

  /** What the invariant says about another thread does not notice the step. */
  lemma OtherAfter(g: Shared, t: Tid, pc: Pc, e: Effect, u: Tid, other: Option<Pc>)
    requires Next(g, t, pc) == Some(e) && u != t && Fits(g, t, Some(pc)) && Fits(g, u, other)
    requires g.lock.writer.Some? ==> g.lock.readers == {}
    ensures Fits(e.g, u, other)
  {
    hide Next;
    LockAfter(g, t, pc, e);
    PointerAfter(g, t, pc, e);
    MutexesAfter(g, t, pc, e);
  }

  /** A thread that is away holds nothing, wherever exactly it is. */
  lemma AwayFits(g: Shared, t: Tid, pc: Option<Pc>, pc': Option<Pc>)
    requires Away(pc) && Away(pc') && Fits(g, t, pc)
    ensures Fits(g, t, pc')
  {
  }

  lemma StepKeeps(s: State, t: Tid)
    requires Inv(s) && Do(s, Step(t)).Some?
    ensures Inv(Do(s, Step(t)).value)
  {
    hide Next, Fits, Objects, History;
    var pc := s.pcs[t];
    var e, s' := Next(s.g, t, pc).value, Do(s, Step(t)).value;
    assert At(s, t) == Some(pc);
    OwnAfter(s.g, t, pc, e);
    if e.pc.None? {
      AwayFits(e.g, t, None, At(s', t));
    }
    forall u: Tid
      ensures Fits(s'.g, u, At(s', u))
    {
      if u != t {
        assert At(s', u) == At(s, u);
        OtherAfter(s.g, t, pc, e, u, At(s, u));
      }
    }
  }

  /** Every act of every thread keeps the invariant. */
  lemma ActKeeps(s: State, act: Act)
    requires Inv(s) && Do(s, act).Some?
    ensures Inv(Do(s, act).value)
  {
    hide Next, Objects, History, Fits;
    var s' := Do(s, act).value;
    if act.Step? {
      StepKeeps(s, act.t);
    } else {
      forall u: Tid
        ensures Fits(s'.g, u, At(s', u))
      {
        assert Fits(s.g, u, At(s, u));
        if u == act.t {
          AwayFits(s.g, u, At(s, u), At(s', u));
        }
      }
    }
  }

  /** Every interleaving of any number of threads keeps it. */
  lemma {:induction false} RunKeeps(acts: seq<Act>)
    requires Run(acts).Some?
    ensures Inv(Run(acts).value)
  {
    if acts != [] {
      hide Do, Inv;
      RunKeeps(acts[..|acts| - 1]);
      ActKeeps(Run(acts[..|acts| - 1]).value, acts[|acts| - 1]);
    }
  }

  ghost predicate Reachable(s: State) {
    exists acts :: Run(acts) == Some(s)
  }

  lemma ReachableKeeps(s: State)
    requires Reachable(s)
    ensures Inv(s)
  {
    var acts :| Run(acts) == Some(s);
    RunKeeps(acts);
  }

  /** Every lock that is held is held by a thread at a point of a call where it should hold it. */
  lemma Holders(s: State)
    requires Inv(s)
    ensures s.g.lock.writer.Some? ==> s.g.lock.writer.value in s.pcs && Writing(s.pcs[s.g.lock.writer.value])
    ensures forall t | t in s.g.lock.readers :: t in s.pcs && Reading(s.pcs[t])
    ensures forall t | t in s.pcs ::
              (Reading(s.pcs[t]) ==> t in s.g.lock.readers) && (Writing(s.pcs[t]) ==> s.g.lock.writer == Some(t))
    ensures forall x | x in s.g.slotMutex :: Holds(s, s.g.slotMutex[x], x) && HoldsSlot(s.pcs[s.g.slotMutex[x]])
    ensures forall x | x in s.g.stubMutex :: Holds(s, s.g.stubMutex[x], x) && HoldsStub(s.pcs[s.g.stubMutex[x]])
  {
    hide Objects, History;
    if s.g.lock.writer.Some? { assert Fits(s.g, s.g.lock.writer.value, At(s, s.g.lock.writer.value)); }
    forall t | t in s.g.lock.readers || t in s.pcs
      ensures t in s.g.lock.readers <==> t in s.pcs && Reading(s.pcs[t])
      ensures s.g.lock.writer == Some(t) <==> t in s.pcs && Writing(s.pcs[t])
    {
      assert Fits(s.g, t, At(s, t));
    }
    forall x | x in s.g.slotMutex
      ensures Holds(s, s.g.slotMutex[x], x) && HoldsSlot(s.pcs[s.g.slotMutex[x]])
    {
      assert Fits(s.g, s.g.slotMutex[x], At(s, s.g.slotMutex[x]));
    }
    forall x | x in s.g.stubMutex
      ensures Holds(s, s.g.stubMutex[x], x) && HoldsStub(s.pcs[s.g.stubMutex[x]])
    {
      assert Fits(s.g, s.g.stubMutex[x], At(s, s.g.stubMutex[x]));
    }
  }

  /** `t` works with the slot `x`, which is its own, inside the shared registry lock. */
  predicate Holds(s: State, t: Tid, x: SlotId) {
    && t in s.pcs && Pointing(s.pcs[t]) && s.pcs[t].slot == x
    && t in s.g.lock.readers && t in s.g.heap.slots && s.g.heap.slots[t] == x
  }

  // ---- the registry ----

  /** The table and the slots only change in a step of a thread that is alone inside the registry lock: no other
      thread is between its `find` and the release of its lock, and no slot or stub mutex is held, so that the slot
      that is destroyed is neither locked nor pointed to. */
  lemma MutatesAlone(s: State, act: Act)
    requires Reachable(s) && Do(s, act).Some?
    requires Do(s, act).value.g.heap != s.g.heap
    ensures && act.Step? && act.t in s.pcs && (s.pcs[act.t].OpenIn? || s.pcs[act.t].CloseIn?)
            && AloneInside(s, act.t)
  {
    ReachableKeeps(s);
    OnlyWritersMutate(s, act);
    hide Inv, Do;
    WriterIsAlone(s, act.t);
  }

  /** Everybody else is away from the registry, and no mutex is held. */
  predicate AloneInside(s: State, t: Tid) {
    && (forall u | u in s.pcs && u != t :: Away(Some(s.pcs[u])))
    && s.g.lock.readers == {} && s.g.slotMutex == map[] && s.g.stubMutex == map[]
  }

  lemma OnlyWritersMutate(s: State, act: Act)
    requires Inv(s) && Do(s, act).Some? && Do(s, act).value.g.heap != s.g.heap
    ensures act.Step? && act.t in s.pcs && (s.pcs[act.t].OpenIn? || s.pcs[act.t].CloseIn?)
  {
    hide Objects, History, Next;
    assert Fits(s.g, act.t, At(s, act.t));
    if act.Step? {
      HeapAfter(s.g, act.t, s.pcs[act.t], Next(s.g, act.t, s.pcs[act.t]).value);
    }
  }

  lemma HeapAfter(g: Shared, t: Tid, pc: Pc, e: Effect)
    requires Next(g, t, pc) == Some(e) && PointerFits(g.heap, t, Some(pc))
    ensures pc.OpenIn? || pc.CloseIn? || e.g.heap == g.heap
  {
  }

  lemma WriterIsAlone(s: State, t: Tid)
    requires Inv(s) && t in s.pcs && Writing(s.pcs[t])
    ensures AloneInside(s, t)
  {
    hide Objects, History, Fits;
    Holders(s);
  }

  /** The raw pointer an RPC works with is the live slot registered for its thread and for no other; and
      `upsf_slots[tid]`, reached after a successful `find`, does not insert. */
  lemma PointerIsOwnSlot(s: State, t: Tid)
    requires Reachable(s) && t in s.pcs
    ensures && (Pointing(s.pcs[t]) ==>
                  && t in s.g.heap.slots && s.g.heap.slots[t] == s.pcs[t].slot && s.pcs[t].slot in s.g.heap.live
                  && (forall u | u in s.g.heap.slots && u != t :: s.g.heap.slots[u] != s.pcs[t].slot))
            && (s.pcs[t].CallFound? ==> t in s.g.heap.slots && Pointer(s.g, t).g == s.g)
  {
    ReachableKeeps(s);
    assert Fits(s.g, t, At(s, t));
  }

  /** Locks nest: whoever holds a stub mutex holds the mutex of the same slot, is the thread that slot is registered
      for, and is inside the shared registry lock. */
  lemma LocksNest(s: State, x: SlotId)
    requires Reachable(s)
    ensures var g := s.g;
            && (x in g.stubMutex ==> x in g.slotMutex && g.slotMutex[x] == g.stubMutex[x])
            && (x in g.slotMutex ==>
                  && g.slotMutex[x] in g.lock.readers
                  && g.slotMutex[x] in g.heap.slots && g.heap.slots[g.slotMutex[x]] == x)
  {
    ReachableKeeps(s);
    hide Inv;
    Holders(s);
    if x in s.g.stubMutex {
      StubInSlot(s, x);
    }
  }

  lemma StubInSlot(s: State, x: SlotId)
    requires Inv(s) && x in s.g.stubMutex
    ensures x in s.g.slotMutex && s.g.slotMutex[x] == s.g.stubMutex[x]
  {
    assert Fits(s.g, s.g.stubMutex[x], At(s, s.g.stubMutex[x]));
  }

  /** Every run is equivalent to its opens and closes done one at a time, in the order in which they took effect. A
      thread is registered exactly when it is bound, to the address it is bound to: the one of its first open since its
      last successful close. And everything that ever happened answered by the binding of its own thread: the return
      codes of close and exists, whether an RPC found a slot, and the address every request went to. */
  lemma AnsweredByBinding(s: State, t: Tid)
    requires Reachable(s)
    ensures var g := s.g;
            && Objects(g.heap) && Addresses(g.heap) == Replay(g.history)
            && Bound(g.history, t) == (if t in g.heap.slots then Some(AddrOf(g.heap, g.heap.slots[t])) else None)
            && forall i | 0 <= i < |g.history| :: Answers(g.history[i], Bound(g.history[..i], g.history[i].t))
  {
    ReachableKeeps(s);
    var g := s.g;
    BoundIsEntry(g.history, t);
    forall i | 0 <= i < |g.history|
      ensures Answers(g.history[i], Bound(g.history[..i], g.history[i].t))
    {
      AnswersByBinding(g.history, i);
    }
  }

  // ---- what a call does ----

  /** What a call does in the end, by the connection its thread has; a subscription does nothing of this kind. */
  function Result(t: Tid, call: Call, connection: Option<Addr>): Event
    requires !call.Subscribe?
  {
    match call
    case Open(a) => DidOpen(t, a)
    case Close => DidClose(t, if connection.Some? then 0 else -1)
    case Exists => DidExists(t, if connection.Some? then 1 else 0)
    case Rpc => if connection.Some? then DidSend(t, connection.value) else DidMiss(t)
  }

  /** The calls a thread began, subscriptions aside, in the order it began them. */
  function Made(acts: seq<Act>, t: Tid): (made: seq<Call>)
    ensures forall i | 0 <= i < |made| :: !made[i].Subscribe?
  {
    if acts == [] then []
    else
      var before := Made(acts[..|acts| - 1], t);
      match acts[|acts| - 1]
      case Begin(u, call) => if u == t && !call.Subscribe? then before + [call] else before
      case _ => before
  }

  /** What these calls do when a thread makes them alone, one after the other. */
  function Alone(t: Tid, calls: seq<Call>): seq<Event>
    requires forall i | 0 <= i < |calls| :: !calls[i].Subscribe?
  {
    if calls == [] then []
    else
      var before := Alone(t, calls[..|calls| - 1]);
      before + [Result(t, calls[|calls| - 1], Bound(before, t))]
  }

  lemma AlonePush(t: Tid, calls: seq<Call>, call: Call)
    requires (forall i | 0 <= i < |calls| :: !calls[i].Subscribe?) && !call.Subscribe?
    ensures Alone(t, calls + [call]) == Alone(t, calls) + [Result(t, call, Bound(Alone(t, calls), t))]
  {
    assert (calls + [call])[..|calls|] == calls;
  }

  /** The subscriptions a thread has begun and that have not failed. */
  function Subscriptions(acts: seq<Act>, t: Tid): int {
    if acts == [] then 0
    else
      var before := Subscriptions(acts[..|acts| - 1], t);
      match acts[|acts| - 1]
      case Begin(u, call) => if u == t && call.Subscribe? then before + 1 else before
      case Fail(u) => if u == t then before - 1 else before
      case _ => before
  }

  /** The call a thread is in, as long as it has not taken effect. */
  function Owed(pc: Option<Pc>): (call: Option<Call>)
    ensures call.Some? ==> !call.value.Subscribe?
  {
    match pc
    case None => None
    case Some(at) =>
      match at
      case OpenWant(a) => Some(Open(a))
      case OpenIn(a) => Some(Open(a))
      case CloseWant => Some(Close)
      case CloseIn => Some(Close)
      case ExistsWant => Some(Exists)
      case ExistsIn => Some(Exists)
      case CallWant => Some(Rpc)
      case CallIn => Some(Rpc)
      case CallFound => Some(Rpc)
      case CallSlot(_) => Some(Rpc)
      case CallLocked(_) => Some(Rpc)
      case CallStub(_) => Some(Rpc)
      case _ => None
  }

  /** What the call of a thread still has to do. */
  function Due(s: State, t: Tid): seq<Event> {
    match Owed(At(s, t))
    case None => []
    case Some(call) => [Result(t, call, Bound(s.g.history, t))]
  }

  /** The event that takes a call into effect, at the point where it does. */
  lemma Effects(g: Shared, t: Tid, pc: Pc, e: Effect)
    requires Next(g, t, pc) == Some(e) && PointerFits(g.heap, t, Some(pc)) && Objects(g.heap)
    ensures if Effective(pc, e.pc) then
              && Owed(Some(pc)).Some? && Owed(e.pc).None?
              && e.g.history == g.history + [Result(t, Owed(Some(pc)).value, Entry(Addresses(g.heap), t))]
            else e.g.history == g.history && Owed(e.pc) == Owed(Some(pc))
  {
    SlotAddress(g.heap, t);
    hide Objects, Addresses, Entry, OpenHeap, CloseHeap, AddrOf;
    match pc {
      case OpenIn(_) =>
      case CloseIn =>
      case ExistsIn =>
      case CallIn =>
      case CallStub(_) =>
      case _ => Prepares(g, t, pc, e);
    }
  }

  predicate Effective(pc: Pc, after: Option<Pc>) {
    pc.OpenIn? || pc.CloseIn? || pc.ExistsIn? || pc.CallStub? || (pc.CallIn? && after == Some(SharedOut))
  }

  lemma Prepares(g: Shared, t: Tid, pc: Pc, e: Effect)
    requires Next(g, t, pc) == Some(e) && !pc.OpenIn? && !pc.CloseIn? && !pc.ExistsIn? && !pc.CallIn? && !pc.CallStub?
    ensures e.g.history == g.history && Owed(e.pc) == Owed(Some(pc))
  {
  }

  /** A step either leaves the history alone, and the call still owes what it owed, or the call takes effect. */
  lemma StepEffects(s: State, t: Tid)
    requires Inv(s) && Do(s, Step(t)).Some?
    ensures var s' := Do(s, Step(t)).value;
            || (s'.g.history == s.g.history && Owed(At(s', t)) == Owed(At(s, t)))
            || (&& Owed(At(s, t)).Some? && Owed(At(s', t)).None? && s'.g.history == s.g.history + Due(s, t))
  {
    hide Objects, Next, Addresses, Result, Bound, Replay, Lawful;
    assert Fits(s.g, t, At(s, t));
    Effects(s.g, t, s.pcs[t], Next(s.g, t, s.pcs[t]).value);
    BoundIsEntry(s.g.history, t);
  }

  /** The history of a thread holds the results of its calls, but for the one that is still to come. */
  ghost predicate Traced(made: seq<Call>, s: State, t: Tid)
    requires forall i | 0 <= i < |made| :: !made[i].Subscribe?
  {
    match Owed(At(s, t))
    case None => Own(s.g.history, t) == Alone(t, made)
    case Some(call) =>
      made != [] && made[|made| - 1] == call && Own(s.g.history, t) == Alone(t, made[..|made| - 1])
  }

  lemma StepTraced(made: seq<Call>, s: State, u: Tid, t: Tid)
    requires (forall i | 0 <= i < |made| :: !made[i].Subscribe?)
    requires Inv(s) && Do(s, Step(u)).Some? && Traced(made, s, t)
    ensures Traced(made, Do(s, Step(u)).value, t)
  {
    hide Inv, Do, Result, Bound, Owed;
    var s' := Do(s, Step(u)).value;
    StepEffects(s, u);
    OthersDoNotMatter(s.g.history, t);
    if t != u {
      OtherStays(s, u, t);
    }
    match Owed(At(s, u)) {
      case None =>
      case Some(call) =>
        var e := Result(u, call, Bound(s.g.history, u));
        ResultOf(u, call, Bound(s.g.history, u));
        OwnPush(s.g.history, e, t);
    }
  }

  lemma ResultOf(t: Tid, call: Call, connection: Option<Addr>)
    requires !call.Subscribe?
    ensures Result(t, call, connection).t == t
  {
  }

  lemma OtherStays(s: State, t: Tid, u: Tid)
    requires Do(s, Step(t)).Some? && u != t
    ensures At(Do(s, Step(t)).value, u) == At(s, u) && Under(Do(s, Step(t)).value, u) == Under(s, u)
  {
    hide Next;
  }

  lemma ActTraced(made: seq<Call>, s: State, act: Act, t: Tid)
    requires (forall i | 0 <= i < |made| :: !made[i].Subscribe?)
    requires Inv(s) && Do(s, act).Some? && Traced(made, s, t)
    ensures var made' := if act.Begin? && act.t == t && !act.call.Subscribe? then made + [act.call] else made;
            Traced(made', Do(s, act).value, t)
  {
    hide Inv, Do, Owed, Alone, Own, Result, Bound;
    if act.Step? {
      StepTraced(made, s, act.t, t);
    } else {
      OwedAfter(s, act, t);
      if act.Begin? && act.t == t && !act.call.Subscribe? {
        assert (made + [act.call])[..|made|] == made;
      }
    }
  }

  /** To begin a call is to owe its effect; nothing else but a step changes what is owed. */
  lemma OwedAfter(s: State, act: Act, t: Tid)
    requires Do(s, act).Some? && !act.Step?
    ensures var s' := Do(s, act).value;
            && s'.g == s.g
            && if act.Begin? && act.t == t && !act.call.Subscribe? then
                 Owed(At(s, t)).None? && Owed(At(s', t)) == Some(act.call)
               else Owed(At(s', t)) == Owed(At(s, t))
  {
  }

  lemma {:induction false} RunTraced(acts: seq<Act>, t: Tid)
    requires Run(acts).Some?
    ensures Traced(Made(acts, t), Run(acts).value, t)
  {
    if acts != [] {
      hide Do, Inv, Traced;
      var n := |acts| - 1;
      RunKeeps(acts[..n]);
      RunTraced(acts[..n], t);
      ActTraced(Made(acts[..n], t), Run(acts[..n]).value, acts[n], t);
    } else {
      assert Made(acts, t) == [];
    }
  }

  /** In every run, whatever the other threads do: everything a thread has done is what its calls do when it makes them
      alone, each once and in the order it made them. Outside every call, and in a subscription, none is missing; inside
      a call, at most the last. */
  lemma EveryCallTakesEffect(acts: seq<Act>, t: Tid)
    requires Run(acts).Some?
    ensures var s, made := Run(acts).value, Made(acts, t);
            var own := Own(s.g.history, t);
            && (t !in s.pcs || Subscribed(s.pcs[t]) ==> own == Alone(t, made))
            && (own == Alone(t, made) || (made != [] && own == Alone(t, made[..|made| - 1])))
  {
    hide Run, Made, Alone, Own;
    RunTraced(acts, t);
  }

  /** How many subscriptions a thread is in. */
  function Level(s: State, t: Tid): nat {
    Under(s, t) + if t in s.pcs && Subscribed(s.pcs[t]) then 1 else 0
  }

  /** A thread is in the subscriptions it began and that have not failed, and in none when it is outside every call:
      every call made in a callback returns to that callback. */
  lemma {:induction false} CallsNest(acts: seq<Act>, t: Tid)
    requires Run(acts).Some?
    ensures Subscriptions(acts, t) == Level(Run(acts).value, t)
    ensures t !in Run(acts).value.pcs ==> Level(Run(acts).value, t) == 0
  {
    if acts != [] {
      var n := |acts| - 1;
      CallsNest(acts[..n], t);
      LevelAfter(Run(acts[..n]).value, acts[n], t);
      hide Do, Level;
    }
  }

  lemma LevelAfter(s: State, act: Act, t: Tid)
    requires Do(s, act).Some? && (t !in s.pcs ==> Level(s, t) == 0)
    ensures var s' := Do(s, act).value;
            && Level(s', t) == Level(s, t)
                               + (if act.t == t && act.Begin? && act.call.Subscribe? then 1 else 0)
                               - (if act.t == t && act.Fail? then 1 else 0)
            && (t !in s'.pcs ==> Level(s', t) == 0)
  {
    hide Next;
    if act.Step? {
      StaysInCall(s, act.t);
    }
  }

  /** Only the environment begins a subscription, or ends one. */
  lemma StaysInCall(s: State, t: Tid)
    requires Do(s, Step(t)).Some?
    ensures var e := Next(s.g, t, s.pcs[t]).value;
            if Subscribed(s.pcs[t]) then e.pc.Some? && Subscribed(e.pc.value)
            else e.pc.Some? ==> !Subscribed(e.pc.value)
  {
  }

  /** The locks an event needs: the exclusive registry lock to open and to close, the shared one for the others, and for
      a request besides the mutexes of the slot its thread is registered for. */
  predicate UnderLocks(g: Shared, e: Event) {
    match e
    case DidOpen(t, _) => g.lock.writer == Some(t)
    case DidClose(t, _) => g.lock.writer == Some(t)
    case DidExists(t, _) => t in g.lock.readers
    case DidMiss(t) => t in g.lock.readers
    case DidSend(t, _) =>
      && t in g.lock.readers && t in g.heap.slots
      && g.heap.slots[t] in g.slotMutex && g.slotMutex[g.heap.slots[t]] == t
      && g.heap.slots[t] in g.stubMutex && g.stubMutex[g.heap.slots[t]] == t
  }

  /** Every event happens under the locks it needs. */
  lemma HappensUnderLocks(s: State, act: Act)
    requires Reachable(s) && Do(s, act).Some?
    ensures var h, h' := s.g.history, Do(s, act).value.g.history;
            h' == h || exists e :: h' == h + [e] && e.t == act.t && UnderLocks(s.g, e)
  {
    ReachableKeeps(s);
    if act.Step? {
      hide Objects, History, UnderLocks, Next;
      assert Fits(s.g, act.t, At(s, act.t));
      hide Fits;
      StepEffects(s, act.t);
      match Owed(At(s, act.t)) {
        case None =>
        case Some(call) =>
          if Do(s, act).value.g.history != s.g.history {
            LocksHeld(s.g, act.t, s.pcs[act.t], Next(s.g, act.t, s.pcs[act.t]).value, call, Bound(s.g.history, act.t));
          }
      }
    }
  }

  lemma LocksHeld(g: Shared, t: Tid, pc: Pc, e: Effect, call: Call, connection: Option<Addr>)
    requires Next(g, t, pc) == Some(e) && Fits(g, t, Some(pc)) && Owed(Some(pc)) == Some(call)
    requires e.g.history == g.history + [Result(t, call, connection)]
    ensures Result(t, call, connection).t == t && UnderLocks(g, Result(t, call, connection))
  {
    assert e.g.history[|g.history|] == Result(t, call, connection);
  }

  // ---- progress ----

  /** A thread outside every call, or in a subscription, holds no lock at all; from outside or from a callback it may
      begin any call, and a stream that is waited for may deliver or fail. */
  lemma SubscriptionHoldsNothing(s: State, t: Tid)
    requires Reachable(s) && (t in s.pcs ==> Subscribed(s.pcs[t]))
    ensures var g := s.g;
            && g.lock.writer != Some(t) && t !in g.lock.readers
            && (forall x | x in g.slotMutex :: g.slotMutex[x] != t)
            && (forall x | x in g.stubMutex :: g.stubMutex[x] != t)
    ensures t !in s.pcs || s.pcs[t].SubCallback? ==> forall call :: Do(s, Begin(t, call)).Some?
    ensures t in s.pcs && s.pcs[t].SubRead? ==> Do(s, Deliver(t)).Some? && Do(s, Fail(t)).Some?
  {
    ReachableKeeps(s);
    assert Fits(s.g, t, At(s, t));
  }

  /** Whoever waits neither for the registry lock nor for a stream can step: the mutexes of a slot are its thread's
      own. */
  lemma InsideNeverWaits(s: State, t: Tid)
    requires Inv(s) && t in s.pcs && !Wanting(s.pcs[t]) && !s.pcs[t].SubRead?
    ensures Do(s, Step(t)).Some?
  {
    assert Fits(s.g, t, At(s, t));
    hide History, Fits;
    Holders(s);
  }

  /** The registry lock is free when nobody is inside. */
  lemma FreeWhenAllAway(s: State)
    requires Inv(s) && forall t | t in s.pcs :: Away(Some(s.pcs[t]))
    ensures s.g.lock == RwLock(None, {}) && s.g.slotMutex == map[] && s.g.stubMutex == map[]
  {
    hide Inv;
    Holders(s);
  }

  /** Nobody is in a call but subscribers that wait for their streams, and every lock is free. */
  predicate Quiet(s: State) {
    && (forall t | t in s.pcs :: s.pcs[t].SubRead?)
    && s.g.lock == RwLock(None, {}) && s.g.slotMutex == map[] && s.g.stubMutex == map[]
  }

  lemma Runnable(s: State) returns (t: Tid)
    requires Inv(s) && !forall t | t in s.pcs :: s.pcs[t].SubRead?
    ensures Do(s, Step(t)).Some?
  {
    if inside :| inside in s.pcs && !Wanting(s.pcs[inside]) && !s.pcs[inside].SubRead? {
      t := inside;
      InsideNeverWaits(s, t);
    } else {
      FreeWhenAllAway(s);
      t :| t in s.pcs && !s.pcs[t].SubRead?;
    }
  }

  /** No deadlock: while anybody is in a call, and not just waiting for a stream, somebody can step; and whoever cannot
      is waiting for the registry lock while somebody else is inside it and can step. */
  lemma SomebodyCanStep(s: State)
    requires Reachable(s) && !forall t | t in s.pcs :: s.pcs[t].SubRead?
    ensures && (exists t :: t in s.pcs && Do(s, Step(t)).Some?)
            && forall t | t in s.pcs && !s.pcs[t].SubRead? && Do(s, Step(t)).None? ::
                 && Wanting(s.pcs[t])
                 && exists u :: u in s.pcs && u != t && !Away(Some(s.pcs[u])) && Do(s, Step(u)).Some?
  {
    ReachableKeeps(s);
    hide Inv;
    var runnable := Runnable(s);
    forall t | t in s.pcs && !s.pcs[t].SubRead? && Do(s, Step(t)).None?
      ensures Wanting(s.pcs[t]) && exists u :: u in s.pcs && u != t && !Away(Some(s.pcs[u])) && Do(s, Step(u)).Some?
    {
      if !Wanting(s.pcs[t]) {
        InsideNeverWaits(s, t);
      } else if inside :| inside in s.pcs && !Away(Some(s.pcs[inside])) {
        InsideNeverWaits(s, inside);
      } else {
        FreeWhenAllAway(s);
      }
    }
  }

  /** The steps a thread may still make before it has returned, to a callback included, or waits for its stream. */
  function StepsLeft(pc: Pc): nat {
    match pc
    case OpenWant(_) => 4
    case OpenIn(_) => 3
    case OpenOut => 2
    case CloseWant => 4
    case CloseIn => 3
    case CloseOut => 2
    case ExistsWant => 4
    case ExistsIn => 3
    case CallWant => 10
    case CallIn => 9
    case CallFound => 8
    case CallSlot(_) => 7
    case CallLocked(_) => 6
    case CallStub(_) => 5
    case CallSent(_) => 4
    case CallUnstub(_) => 3
    case SharedOut => 2
    case SubCallback => 1
    case SubRead => 0
  }

  function Steps(s: State, ts: seq<Tid>): Option<State>
    decreases |ts|
  {
    if ts == [] then Some(s)
    else
      match Do(s, Step(ts[0]))
      case None => None
      case Some(s') => Steps(s', ts[1..])
  }

  /** A step of an ordinary call leads on inside the registry lock, or out of the call. */
  lemma Onwards(g: Shared, t: Tid, pc: Pc, e: Effect)
    requires Next(g, t, pc) == Some(e) && !Subscribed(pc)
    ensures 1 < StepsLeft(pc)
    ensures e.pc.Some? ==> !Away(e.pc) && StepsLeft(e.pc.value) < StepsLeft(pc)
  {
  }

  /** A thread that got the registry lock, or can get it, finishes its call by its own steps alone, at most nine; what
      the call still had to do is then done, and nothing else. */
  lemma {:induction false} Returns(s: State, t: Tid) returns (ts: seq<Tid>)
    requires Inv(s) && Do(s, Step(t)).Some? && !Subscribed(s.pcs[t])
    ensures |ts| < StepsLeft(s.pcs[t]) && forall i | 0 <= i < |ts| :: ts[i] == t
    ensures Steps(s, ts).Some? && Inv(Steps(s, ts).value)
    ensures Steps(s, ts).value.pcs == Returned(s, t).pcs && Steps(s, ts).value.under == Returned(s, t).under
    ensures Steps(s, ts).value.g.history == s.g.history + Due(s, t)
    decreases StepsLeft(s.pcs[t])
  {
    hide Inv, Next, StepsLeft;
    var e, s' := Next(s.g, t, s.pcs[t]).value, Do(s, Step(t)).value;
    Onwards(s.g, t, s.pcs[t], e);
    StepKeeps(s, t);
    StepEffects(s, t);
    ts := [t];
    if e.pc.Some? {
      InsideNeverWaits(s', t);
      var rest := Returns(s', t);
      ts := [t] + rest;
      assert ts[1..] == rest;
    }
  }

  // ---- every schedule ends ----

  ghost function Work(pcs: map<Tid, Pc>): nat
    decreases |pcs|
  {
    if pcs == map[] then 0
    else
      var t :| t in pcs;
      Smaller(pcs, t);
      StepsLeft(pcs[t]) + Work(pcs - {t})
  }

  lemma Smaller(pcs: map<Tid, Pc>, t: Tid)
    requires t in pcs
    ensures |pcs - {t}| == |pcs| - 1
  {
    assert (pcs - {t}).Keys == pcs.Keys - {t};
  }

  /** It does not matter which thread is counted first. */
  lemma {:induction false} WorkOf(pcs: map<Tid, Pc>, t: Tid)
    requires t in pcs
    ensures Work(pcs) == StepsLeft(pcs[t]) + Work(pcs - {t})
    decreases |pcs|
  {
    var u :| u in pcs && Work(pcs) == StepsLeft(pcs[u]) + Work(pcs - {u});
    if u != t {
      Smaller(pcs, u);
      Smaller(pcs, t);
      WorkOf(pcs - {u}, t);
      WorkOf(pcs - {t}, u);
      assert pcs - {u} - {t} == pcs - {t} - {u};
    }
  }

  lemma {:induction false} WorkBound(pcs: map<Tid, Pc>)
    ensures Work(pcs) <= 10 * |pcs|
    decreases |pcs|
  {
    if pcs != map[] {
      var t :| t in pcs;
      Smaller(pcs, t);
      WorkOf(pcs, t);
      WorkBound(pcs - {t});
    }
  }

  /** A step takes its thread nearer to the end of its call and leaves the others where they are. */
  lemma StepMoves(s: State, t: Tid)
    requires Do(s, Step(t)).Some?
    ensures var s' := Do(s, Step(t)).value;
            && t in s.pcs && s'.pcs - {t} == s.pcs - {t}
            && (if t in s'.pcs then StepsLeft(s'.pcs[t]) else 0) < StepsLeft(s.pcs[t])
  {
    var e, s' := Next(s.g, t, s.pcs[t]).value, Do(s, Step(t)).value;
    assert e.pc.Some? ==> StepsLeft(e.pc.value) < StepsLeft(s.pcs[t]);
    assert e.pc.None? ==> 1 < StepsLeft(s.pcs[t]);
    hide Next, StepsLeft;
    assert s'.pcs - {t} == s.pcs - {t};
  }

  lemma StepWorks(s: State, t: Tid)
    requires Do(s, Step(t)).Some?
    ensures Work(Do(s, Step(t)).value.pcs) < Work(s.pcs)
  {
    hide Next, Returned, StepsLeft;
    var s' := Do(s, Step(t)).value;
    StepMoves(s, t);
    WorkOf(s.pcs, t);
    if t in s'.pcs {
      WorkOf(s'.pcs, t);
    } else {
      assert s'.pcs == s'.pcs - {t};
    }
  }

  lemma {:induction false} ScheduleWorks(s: State, ts: seq<Tid>)
    requires Inv(s) && Steps(s, ts).Some?
    ensures |ts| + Work(Steps(s, ts).value.pcs) <= Work(s.pcs) && Inv(Steps(s, ts).value)
    decreases |ts|
  {
    hide Inv;
    if ts != [] {
      StepKeeps(s, ts[0]);
      StepWorks(s, ts[0]);
      ScheduleWorks(Do(s, Step(ts[0])).value, ts[1..]);
    }
  }

  /** As long as no new call begins and no stream moves, every schedule, fair or not, comes to an end after at most ten
      steps a thread; and where it cannot go on, everybody has returned and every lock is free. */
  lemma EveryScheduleEnds(s: State, ts: seq<Tid>)
    requires Reachable(s) && Steps(s, ts).Some?
    ensures |ts| <= 10 * |s.pcs|
    ensures (forall t :: Do(Steps(s, ts).value, Step(t)).None?) ==> Quiet(Steps(s, ts).value)
  {
    ReachableKeeps(s);
    hide Inv;
    ScheduleWorks(s, ts);
    WorkBound(s.pcs);
    var s' := Steps(s, ts).value;
    if forall t :: Do(s', Step(t)).None? {
      if !forall t | t in s'.pcs :: s'.pcs[t].SubRead? {
        var t := Runnable(s');
      }
      FreeWhenAllAway(s');
    }
  }

  lemma {:induction false} Drain(s: State) returns (ts: seq<Tid>)
    requires Inv(s)
    ensures Steps(s, ts).Some? && Quiet(Steps(s, ts).value)
    decreases Work(s.pcs)
  {
    hide Inv;
    ts := [];
    if forall t | t in s.pcs :: s.pcs[t].SubRead? {
      FreeWhenAllAway(s);
    } else {
      var t := Runnable(s);
      StepKeeps(s, t);
      StepWorks(s, t);
      var rest := Drain(Do(s, Step(t)).value);
      ts := [t] + rest;
      assert ts[1..] == rest;
    }
  }

  /** From every reachable state all calls in progress can return, and then every lock is free. */
  lemma AllCanReturn(s: State)
    requires Reachable(s)
    ensures exists ts :: Steps(s, ts).Some? && Quiet(Steps(s, ts).value)
  {
    ReachableKeeps(s);
    var ts := Drain(s);
  }
}
