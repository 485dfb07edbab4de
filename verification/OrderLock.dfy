/**
  The per-order lock of controller/topup.go and the payment callbacks it protects,
  as a step system over any number of threads.

  A thread runs LockOrder, one callback body, then the deferred UnlockOrder; the Stripe and
  Creem callbacks run their body without the lock. Each constructor of `Pc` is a point
  between two atomic operations of that code, so a run of the system is an interleaving of
  the source's own steps. Every database call may fail, and a failing write may or may not
  have reached the database. An unlocked writer may insert new pending orders and may move
  any order to a status other than pending at any time.

  Four callbacks settle an order in a database transaction. Its writes take effect together;
  its read belongs to them only if the row lock it asks for is taken (`rowLocks`).
*/
module OrderLock {
  import opened Base

  type Order = string
  type Tid = nat
  type MutexId = nat

  datatype Status = Pending | Success | Other(name: string)

  /** Which callback a thread runs: EpayNotify, the ZS Pay notification or paid status query, HelipayNotify
      with its trade state, AdminCompleteTopUp, or the payment completion of Waffo, Stripe or Creem. */
  datatype Job = Epay | ZsPay | Helipay(tradeState: string) | Admin | Waffo | Stripe | Creem

  /** The callback settles the order in one database transaction. */
  predicate Transactional(job: Job) {
    job == Admin || job == Waffo || Unlocked(job)
  }

  /** The callback never takes the order lock. */
  predicate Unlocked(job: Job) {
    job == Stripe || job == Creem
  }

  datatype Pc =
    | Start                                   // about to take createLock
    | HasCreate                               // about to load the table entry
    | Looked(found: Option<MutexId>)          // about to store a new entry if none was found
    | Got                                     // about to increment refCount
    | Counted                                 // about to release createLock
    | Waiting                                 // blocked on rcm.mu.Lock()
    | Reading                                 // holds the order; about to read it
    | Deciding(seen: Status)                  // has read the status; about to act on it
    | Crediting                               // stored success; about to add quota
    | Unlocking                               // about to load the table entry to unlock it
    | Loaded(target: MutexId)                 // about to unlock the mutex it loaded
    | Released                                // about to take createLock again
    | Retaking                                // about to decrement refCount
    | Dropped                                 // about to delete the entry at refCount 0
    | Cleaned                                 // about to release createLock
    | Opening                                 // no lock; saw a pending order, about to begin the transaction
    | Noted(seen: Status)                     // no lock; its transaction has read the status
    | Done
    | Lost                                    // UnlockOrder found no entry: the mutex stays locked
    | Crashed                                 // unlock of an unlocked mutex

  /** `m` is the mutex the thread found or put in the table. */
  datatype Thread = Thread(order: Order, job: Job, pc: Pc, m: MutexId)

  datatype RefCountedMutex = RefCountedMutex(holder: Option<Tid>, refCount: int)

  datatype State = State(
    createLock: Option<Tid>,
    orderLocks: map<Order, MutexId>,
    mutexes: map<MutexId, RefCountedMutex>,
    threads: seq<Thread>,
    orders: map<Order, Status>,
    worthless: set<Order>,         // orders whose recorded amount comes to no quota
    rowLocks: bool,                // whether the row lock that a transaction asks for is taken
    stored: set<Order>,            // orders that were ever stored as success
    credits: multiset<Order>)      // one occurrence per quota increase

  // ----- steps -----

  function At(s: State, t: Tid, pc: Pc): State
    requires t < |s.threads|
  {
    s.(threads := s.threads[t := s.threads[t].(pc := pc)])
  }

  /** The thread goes on with mutex `m`. */
  function With(s: State, t: Tid, pc: Pc, m: MutexId): State
    requires t < |s.threads|
  {
    s.(threads := s.threads[t := s.threads[t].(pc := pc, m := m)])
  }

  /** A new table entry for the order. */
  function Entered(s: State, o: Order, m: MutexId): State {
    s.(orderLocks := s.orderLocks[o := m], mutexes := s.mutexes[m := RefCountedMutex(None, 0)])
  }

  /** What a step does to the database: nothing, store a status, add the quota, or both in one transaction. */
  datatype Deed = Idle | Store(st: Status) | Credit | Pay

  function StoreStatus(s: State, o: Order, st: Status): State {
    s.(orders := s.orders[o := st], stored := if st == Success then s.stored + {o} else s.stored)
  }

  function AddCredit(s: State, o: Order): State {
    s.(credits := s.credits + multiset{o})
  }

  function Do(s: State, o: Order, d: Deed): State {
    match d
    case Idle => s
    case Store(st) => StoreStatus(s, o, st)
    case Credit => AddCredit(s, o)
    case Pay => AddCredit(StoreStatus(s, o, Success), o)
  }

  /** The status a callback writes when it sees a pending order, if any. */
  function Target(job: Job): Option<Status> {
    match job
    case Epay => Some(Success)
    case ZsPay => Some(Success)
    case Helipay(tradeState) =>
      if tradeState == "SUCCESS" then Some(Success)
      else if tradeState == "FAILED" then Some(Other("failed"))
      else None
    case _ => Some(Success)
  }

  /** LockOrder up to the table entry. */
  ghost predicate LookupStep(s: State, t: Tid, s': State)
    requires t < |s.threads|
  {
    var o := s.threads[t].order;
    match s.threads[t].pc
    case Start =>
      !Unlocked(s.threads[t].job) && s.createLock == None && s' == At(s.(createLock := Some(t)), t, HasCreate)
    case HasCreate =>
      s' == At(s, t, Looked(if o in s.orderLocks then Some(s.orderLocks[o]) else None))
    case Looked(Some(m)) => s' == With(s, t, Got, m)
    case Looked(None) =>
      exists m :: m !in s.mutexes &&
        s' == With(Entered(s, o, m), t, Got, m)
    case _ => false
  }

  /** LockOrder from the table entry on. */
  ghost predicate AcquireStep(s: State, t: Tid, s': State)
    requires t < |s.threads|
  {
    var m := s.threads[t].m;
    match s.threads[t].pc
    case Got =>
      m in s.mutexes &&
      s' == At(s.(mutexes := s.mutexes[m := s.mutexes[m].(refCount := s.mutexes[m].refCount + 1)]), t, Counted)
    case Counted => s' == At(s.(createLock := None), t, Waiting)
    case Waiting =>
      m in s.mutexes && s.mutexes[m].holder == None &&
      s' == At(s.(mutexes := s.mutexes[m := s.mutexes[m].(holder := Some(t))]), t, Reading)
    case _ => false
  }

  ghost predicate LockStep(s: State, t: Tid, s': State)
    requires t < |s.threads|
  {
    LookupStep(s, t, s') || AcquireStep(s, t, s')
  }

  /** What the callback makes of a pending order when nothing fails; the admin and Waffo ones refuse an order worth no
      quota. */
  function Outcome(s: State, th: Thread): Option<Status> {
    if (th.job == Admin || th.job == Waffo) && th.order in s.worthless then None else Target(th.job)
  }

  /** The order is there and has the status. */
  predicate Has(s: State, o: Order, st: Status) {
    o in s.orders && s.orders[o] == st
  }

  /** The callback under the lock may do `d` and go on to `pc`. With `faults` false every database call takes effect and
      reports success. A transaction with the row lock is carried through where the order is read. */
  predicate MayWork(s: State, th: Thread, d: Deed, pc: Pc, faults: bool) {
    var o := th.order;
    match th.pc
    case Reading =>
      || ((faults || o !in s.orders) && d == Idle && pc == Unlocking)
      || (o in s.orders &&
          if Transactional(th.job) && s.rowLocks then
            pc == Unlocking && d == if s.orders[o] == Pending && Outcome(s, th).Some? then Pay else Idle
          else d == Idle && pc == Deciding(s.orders[o]))
    case Deciding(seen) =>
      if seen != Pending || Outcome(s, th) == None then d == Idle && pc == Unlocking
      else
        var store := if Transactional(th.job) then Pay else Store(Outcome(s, th).value);
        || (faults && pc == Unlocking && (d == Idle || d == store))
        || (d == store && pc == if d == Store(Success) then Crediting else Unlocking)
    case Crediting => pc == Unlocking && (d == Credit || (faults && d == Idle))
    case _ => false
  }

  /** A transaction begins without the order lock, and with the row lock is carried through. */
  predicate MayBegin(s: State, o: Order, d: Deed, pc: Pc, faults: bool) {
    || ((faults || o !in s.orders) && d == Idle && pc == Done)
    || (o in s.orders &&
        if s.rowLocks then pc == Done && d == if s.orders[o] == Pending then Pay else Idle
        else d == Idle && pc == Noted(s.orders[o]))
  }

  /** The callbacks without the order lock; that of Creem first looks at the order outside the transaction. */
  predicate MayRun(s: State, th: Thread, d: Deed, pc: Pc, faults: bool) {
    var o := th.order;
    match th.pc
    case Start =>
      if th.job == Stripe then MayBegin(s, o, d, pc, faults)
      else d == Idle && ((pc == Opening && Has(s, o, Pending)) || (pc == Done && (faults || !Has(s, o, Pending))))
    case Opening => MayBegin(s, o, d, pc, faults)
    case Noted(seen) =>
      pc == Done && ((d == Idle && (faults || seen != Pending)) || (d == Pay && seen == Pending))
    case _ => false
  }

  predicate May(s: State, th: Thread, d: Deed, pc: Pc, faults: bool) {
    if Unlocked(th.job) then MayRun(s, th, d, pc, faults) else MayWork(s, th, d, pc, faults)
  }

  /** A step of a callback body. */
  ghost predicate BodyStep(s: State, t: Tid, s': State, faults: bool)
    requires t < |s.threads|
  {
    exists d: Deed, pc: Pc :: Does(s, t, s', d, pc, faults)
  }

  ghost predicate Does(s: State, t: Tid, s': State, d: Deed, pc: Pc, faults: bool)
    requires t < |s.threads|
  {
    May(s, s.threads[t], d, pc, faults) && s' == At(Do(s, s.threads[t].order, d), t, pc)
  }

  /** UnlockOrder up to the unlocked mutex. */
  ghost predicate ReleaseStep(s: State, t: Tid, s': State)
    requires t < |s.threads|
  {
    var o := s.threads[t].order;
    match s.threads[t].pc
    case Unlocking =>
      s' == At(s, t, if o in s.orderLocks then Loaded(s.orderLocks[o]) else Lost)
    case Loaded(target) =>
      target in s.mutexes &&
      if s.mutexes[target].holder == None then s' == At(s, t, Crashed)
      else s' == With(s.(mutexes := s.mutexes[target := s.mutexes[target].(holder := None)]), t, Released, target)
    case _ => false
  }

  /** UnlockOrder from there on. */
  ghost predicate CountOutStep(s: State, t: Tid, s': State)
    requires t < |s.threads|
  {
    var o, m := s.threads[t].order, s.threads[t].m;
    match s.threads[t].pc
    case Released => s.createLock == None && s' == At(s.(createLock := Some(t)), t, Retaking)
    case Retaking =>
      m in s.mutexes &&
      s' == At(s.(mutexes := s.mutexes[m := s.mutexes[m].(refCount := s.mutexes[m].refCount - 1)]), t, Dropped)
    case Dropped =>
      m in s.mutexes &&
      s' == At(if s.mutexes[m].refCount == 0 then s.(orderLocks := s.orderLocks - {o}) else s, t, Cleaned)
    case Cleaned => s' == At(s.(createLock := None), t, Done)
    case _ => false
  }

  ghost predicate UnlockStep(s: State, t: Tid, s': State)
    requires t < |s.threads|
  {
    ReleaseStep(s, t, s') || CountOutStep(s, t, s')
  }

  ghost predicate ThreadStep(s: State, t: Tid, s': State, faults: bool)
    requires t < |s.threads|
  {
    LockStep(s, t, s') || BodyStep(s, t, s', faults) || UnlockStep(s, t, s')
  }

  /** Writers outside the lock: order creation, and any move to a status other than pending. */
  ghost predicate Interference(s: State, s': State) {
    exists o, st :: (if o in s.orders then st != Pending else st == Pending) && s' == StoreStatus(s, o, st)
  }

  ghost predicate Next(s: State, s': State) {
    || (exists t: Tid :: t < |s.threads| && ThreadStep(s, t, s', true))
    || Interference(s, s')
  }

  ghost predicate Init(s: State) {
    && s.createLock == None && s.orderLocks == map[] && s.mutexes == map[]
    && (forall t: Tid :: t < |s.threads| ==> s.threads[t].pc == Start)
    && s.credits == multiset{} && s.stored == set o | o in s.orders && s.orders[o] == Success
  }

  ghost predicate Run(r: seq<State>) {
    && |r| > 0 && Init(r[0])
    && forall i: nat :: i + 1 < |r| ==> Next(r[i], r[i + 1])
  }

  // ----- the invariant -----

  /** Between the refCount increment and the decrement. */
  predicate InUse(pc: Pc) {
    pc.Counted? || pc.Waiting? || HoldsOrder(pc) || pc.Released? || pc.Retaking?
  }

  /** Between rcm.mu.Lock() and rcm.mu.Unlock(). */
  predicate HoldsOrder(pc: Pc) {
    pc.Reading? || pc.Deciding? || pc.Crediting? || pc.Unlocking? || pc.Loaded?
  }

  predicate HoldsCreate(pc: Pc) {
    pc.HasCreate? || pc.Looked? || pc.Got? || pc.Counted? || pc.Retaking? || pc.Dropped? || pc.Cleaned?
  }

  /** Pinned to the table entry of its order. */
  predicate Pinned(pc: Pc) {
    InUse(pc) || pc.Got? || pc.Dropped?
  }

  ghost function Users(s: State, o: Order): set<Tid> {
    set t: Tid | t < |s.threads| && s.threads[t].order == o && InUse(s.threads[t].pc)
  }

  ghost predicate CreateInv(s: State, t: Tid)
    requires t < |s.threads|
  {
    HoldsCreate(s.threads[t].pc) <==> s.createLock == Some(t)
  }

  ghost predicate ThreadInv(s: State, t: Tid)
    requires t < |s.threads|
  {
    var th := s.threads[t];
    && !th.pc.Lost? && !th.pc.Crashed?
    && (Pinned(th.pc) ==> th.order in s.orderLocks && s.orderLocks[th.order] == th.m)
    && (th.pc.Loaded? ==> th.pc.target == th.m)
    && (th.pc.Looked? ==> th.pc.found == if th.order in s.orderLocks then Some(s.orderLocks[th.order]) else None)
    && (HoldsOrder(th.pc) ==> th.m in s.mutexes && s.mutexes[th.m].holder == Some(t))
  }

  /** Some thread is pinned to the entry of order `o`. */
  ghost predicate Justified(s: State, o: Order) {
    exists t: Tid :: t < |s.threads| && s.threads[t].order == o && Pinned(s.threads[t].pc)
  }

  ghost predicate EntryInv(s: State, o: Order) {
    o in s.orderLocks ==>
      && s.orderLocks[o] in s.mutexes
      && s.mutexes[s.orderLocks[o]].refCount == |Users(s, o)|
      && Justified(s, o)
  }

  /** Two orders never share a mutex. */
  ghost predicate Separate(s: State, o: Order, p: Order) {
    o in s.orderLocks && p in s.orderLocks && s.orderLocks[o] == s.orderLocks[p] ==> o == p
  }

  ghost predicate HolderInv(s: State, m: MutexId) {
    m in s.mutexes && s.mutexes[m].holder.Some? ==>
      var t := s.mutexes[m].holder.value;
      t < |s.threads| && HoldsOrder(s.threads[t].pc) && s.threads[t].m == m
  }

  /** Thread `t` of the order runs without the lock, and thread `u` would credit the order too and does not shut it out:
      with row locks every transaction does. */
  ghost predicate Clash(s: State, o: Order, t: Tid, u: Tid) {
    && t < |s.threads| && u < |s.threads| && t != u && s.threads[t].order == o && s.threads[u].order == o
    && Unlocked(s.threads[t].job) && Outcome(s, s.threads[u]) == Some(Success)
    && (s.rowLocks ==> !Transactional(s.threads[u].job))
  }

  ghost predicate Conflict(s: State, o: Order) {
    exists t: Tid, u: Tid :: Clash(s, o, t, u)
  }

  /** The thread has seen a pending order and is going to credit it. */
  predicate Poised(s: State, th: Thread) {
    || (th.pc.Deciding? && th.pc.seen == Pending && Outcome(s, th) == Some(Success))
    || th.pc.Crediting?
    || (th.pc.Noted? && th.pc.seen == Pending)
  }

  ghost predicate CreditInv(s: State) {
    && (forall o :: CreditOrderInv(s, o))
    && (forall t: Tid :: t < |s.threads| ==> CreditThreadInv(s, t) && JobInv(s, t))
  }

  ghost predicate CreditOrderInv(s: State, o: Order) {
    && (!Conflict(s, o) ==> s.credits[o] <= 1)
    && (s.credits[o] > 0 ==> o in s.stored && o in s.orders && s.orders[o] != Pending)
  }

  ghost predicate CreditThreadInv(s: State, t: Tid)
    requires t < |s.threads|
  {
    var th := s.threads[t];
    && (th.pc.Deciding? || th.pc.Crediting? || th.pc.Noted? ==> th.order in s.orders)
    && (th.pc.Crediting? ==> th.order in s.stored && s.orders[th.order] != Pending)
    && (Poised(s, th) && !Conflict(s, th.order) ==> s.credits[th.order] == 0)
  }

  /** Where each kind of callback can be. */
  predicate JobFits(s: State, th: Thread) {
    && (if Unlocked(th.job) then AwayFromLocks(th.pc) else !th.pc.Opening? && !th.pc.Noted?)
    && (s.rowLocks ==> !th.pc.Noted? && (th.pc.Deciding? ==> !Transactional(th.job)))
    && (th.pc.Crediting? ==> Outcome(s, th) == Some(Success) && !Transactional(th.job))
  }

  ghost predicate JobInv(s: State, t: Tid)
    requires t < |s.threads|
  {
    JobFits(s, s.threads[t])
  }

  ghost predicate LockInv(s: State) {
    && (s.createLock.Some? ==> s.createLock.value < |s.threads|)
    && (forall t: Tid :: t < |s.threads| ==> CreateInv(s, t))
    && (forall t: Tid :: t < |s.threads| ==> ThreadInv(s, t))
    && (forall o :: EntryInv(s, o))
    && (forall o, p :: Separate(s, o, p))
    && (forall m :: HolderInv(s, m))
  }

  ghost predicate Inv(s: State) {
    LockInv(s) && CreditInv(s)
  }

  lemma OneHolder(s: State, t: Tid, u: Tid)
    requires LockInv(s) && t < |s.threads| && u < |s.threads|
    requires HoldsOrder(s.threads[t].pc) && HoldsOrder(s.threads[u].pc) && s.threads[t].order == s.threads[u].order
    ensures t == u
  {
    assert ThreadInv(s, t) && ThreadInv(s, u);
  }

  /** `s'` is `s` with thread `t` moved to another point. */
  ghost predicate Moved(s: State, t: Tid, s': State)
    requires t < |s.threads|
  {
    |s'.threads| == |s.threads| &&
    s'.threads == s.threads[t := s.threads[t].(pc := s'.threads[t].pc, m := s'.threads[t].m)]
  }

  /** A move changes the number of users of the thread's own order only, and only by the thread itself. */
  lemma UsersAfter(s: State, t: Tid, s': State, o: Order)
    requires t < |s.threads| && Moved(s, t, s')
    ensures |Users(s', o)| ==
            if o != s.threads[t].order || InUse(s.threads[t].pc) == InUse(s'.threads[t].pc) then |Users(s, o)|
            else if InUse(s'.threads[t].pc) then |Users(s, o)| + 1 else |Users(s, o)| - 1
  {
    if o != s.threads[t].order || InUse(s.threads[t].pc) == InUse(s'.threads[t].pc) {
      assert Users(s', o) == Users(s, o);
    } else if InUse(s'.threads[t].pc) {
      assert Users(s', o) == Users(s, o) + {t};
    } else {
      assert Users(s', o) == Users(s, o) - {t};
    }
  }

  /** A move keeps an entry justified unless the mover was its only pinned thread. */
  lemma JustifiedAfter(s: State, t: Tid, s': State, o: Order)
    requires t < |s.threads| && Moved(s, t, s') && Justified(s, o)
    requires o == s.threads[t].order && Pinned(s.threads[t].pc) ==> Pinned(s'.threads[t].pc) || Users(s', o) != {}
    ensures Justified(s', o)
  {
    var w: Tid :| w < |s.threads| && s.threads[w].order == o && Pinned(s.threads[w].pc);
    if w == t && !Pinned(s'.threads[t].pc) {
      var v: Tid :| v in Users(s', o);
      assert Pinned(s'.threads[v].pc);
    } else {
      assert s'.threads[w].order == o && Pinned(s'.threads[w].pc);
    }
  }

  lemma NoUsers(s: State, o: Order)
    requires LockInv(s) && o !in s.orderLocks
    ensures Users(s, o) == {}
  {
    assert forall t :: t in Users(s, o) ==> ThreadInv(s, t);
  }

  /** While a createLock holder sees refCount 0 on its own entry, nobody else is pinned to that entry. */
  lemma LastOne(s: State, t: Tid, u: Tid)
    requires LockInv(s) && t < |s.threads| && u < |s.threads| && u != t && s.threads[u].order == s.threads[t].order
    requires s.threads[t].pc.Dropped? && s.threads[t].m in s.mutexes && s.mutexes[s.threads[t].m].refCount == 0
    ensures !Pinned(s.threads[u].pc) && !s.threads[u].pc.Looked?
  {
    var o := s.threads[t].order;
    assert CreateInv(s, t) && CreateInv(s, u) && ThreadInv(s, t) && EntryInv(s, o);
    assert InUse(s.threads[u].pc) ==> u in Users(s, o);
  }

  lemma LookupCreate(s: State, t: Tid, s': State, u: Tid)
    requires LockInv(s) && t < |s.threads| && LookupStep(s, t, s') && u < |s.threads|
    ensures Moved(s, t, s') && (s'.createLock.Some? ==> s'.createLock.value < |s'.threads|) && CreateInv(s', u)
  {
    assert CreateInv(s, t) && CreateInv(s, u) && ThreadInv(s, t);
  }

  lemma AcquireCreate(s: State, t: Tid, s': State, u: Tid)
    requires LockInv(s) && t < |s.threads| && AcquireStep(s, t, s') && u < |s.threads|
    ensures Moved(s, t, s') && (s'.createLock.Some? ==> s'.createLock.value < |s'.threads|) && CreateInv(s', u)
  {
    assert CreateInv(s, t) && CreateInv(s, u) && ThreadInv(s, t);
  }

  lemma LockingCreate(s: State, t: Tid, s': State, u: Tid)
    requires LockInv(s) && t < |s.threads| && LockStep(s, t, s') && u < |s.threads|
    ensures Moved(s, t, s') && (s'.createLock.Some? ==> s'.createLock.value < |s'.threads|) && CreateInv(s', u)
  {
    if LookupStep(s, t, s') { LookupCreate(s, t, s', u); } else { AcquireCreate(s, t, s', u); }
  }

  lemma LockingPins(s: State, t: Tid, s': State, o: Order)
    requires LockInv(s) && t < |s.threads| && LockStep(s, t, s') && o in s'.orderLocks
    ensures Justified(s', o)
  {
    LockingCreate(s, t, s', t);
    if o in s.orderLocks {
      assert EntryInv(s, o);
      JustifiedAfter(s, t, s', o);
    } else {
      assert s'.threads[t].order == o && Pinned(s'.threads[t].pc);
    }
  }

  lemma FoundCount(s: State, t: Tid, s': State, o: Order)
    requires t < |s.threads| && ThreadInv(s, t) && LookupStep(s, t, s') && o in s'.orderLocks
    requires if o in s.orderLocks then EntryInv(s, o) && Separate(s, o, s.threads[t].order) else |Users(s, o)| == 0
    requires s.threads[t].pc.Looked?
    ensures s'.orderLocks[o] in s'.mutexes && s'.mutexes[s'.orderLocks[o]].refCount == |Users(s', o)|
  {
    UsersAfter(s, t, s', o);
  }

  lemma AskedCount(s: State, t: Tid, s': State, o: Order)
    requires t < |s.threads| && ThreadInv(s, t) && LookupStep(s, t, s') && o in s'.orderLocks
    requires if o in s.orderLocks then EntryInv(s, o) && Separate(s, o, s.threads[t].order) else |Users(s, o)| == 0
    requires !s.threads[t].pc.Looked?
    ensures s'.orderLocks[o] in s'.mutexes && s'.mutexes[s'.orderLocks[o]].refCount == |Users(s', o)|
  {
    UsersAfter(s, t, s', o);
  }

  lemma LookupCount(s: State, t: Tid, s': State, o: Order)
    requires t < |s.threads| && ThreadInv(s, t) && LookupStep(s, t, s') && o in s'.orderLocks
    requires if o in s.orderLocks then EntryInv(s, o) && Separate(s, o, s.threads[t].order) else |Users(s, o)| == 0
    ensures s'.orderLocks[o] in s'.mutexes && s'.mutexes[s'.orderLocks[o]].refCount == |Users(s', o)|
  {
    if s.threads[t].pc.Looked? { FoundCount(s, t, s', o); } else { AskedCount(s, t, s', o); }
  }

  lemma AcquireCount(s: State, t: Tid, s': State, o: Order)
    requires t < |s.threads| && ThreadInv(s, t) && AcquireStep(s, t, s') && o in s'.orderLocks
    requires if o in s.orderLocks then EntryInv(s, o) && Separate(s, o, s.threads[t].order) else |Users(s, o)| == 0
    ensures s'.orderLocks[o] in s'.mutexes && s'.mutexes[s'.orderLocks[o]].refCount == |Users(s', o)|
  {
    UsersAfter(s, t, s', o);
  }

  /** Only the step that counts a thread in changes a refCount, and it is the step that makes it a user. */
  lemma LockingCount(s: State, t: Tid, s': State, o: Order)
    requires t < |s.threads| && ThreadInv(s, t) && LockStep(s, t, s') && o in s'.orderLocks
    requires if o in s.orderLocks then EntryInv(s, o) && Separate(s, o, s.threads[t].order) else |Users(s, o)| == 0
    ensures s'.orderLocks[o] in s'.mutexes && s'.mutexes[s'.orderLocks[o]].refCount == |Users(s', o)|
  {
    if LookupStep(s, t, s') { LookupCount(s, t, s', o); } else { AcquireCount(s, t, s', o); }
  }

  lemma LockingEntry(s: State, t: Tid, s': State, o: Order)
    requires LockInv(s) && t < |s.threads| && LockStep(s, t, s')
    ensures EntryInv(s', o)
  {
    if o in s'.orderLocks {
      LockingPins(s, t, s', o);
      assert EntryInv(s, o) && ThreadInv(s, t) && Separate(s, o, s.threads[t].order);
      if o !in s.orderLocks { NoUsers(s, o); }
      LockingCount(s, t, s', o);
    }
  }

  lemma FoundSelf(s: State, t: Tid, s': State)
    requires t < |s.threads| && ThreadInv(s, t) && LookupStep(s, t, s')
    requires s.threads[t].pc.Looked?
    ensures |s'.threads| == |s.threads| && ThreadInv(s', t)
  {
  }

  lemma AskedSelf(s: State, t: Tid, s': State)
    requires t < |s.threads| && ThreadInv(s, t) && LookupStep(s, t, s')
    requires !s.threads[t].pc.Looked?
    ensures |s'.threads| == |s.threads| && ThreadInv(s', t)
  {
  }

  lemma LookingUp(s: State, t: Tid, s': State)
    requires t < |s.threads| && ThreadInv(s, t) && LookupStep(s, t, s')
    ensures |s'.threads| == |s.threads| && ThreadInv(s', t)
  {
    if s.threads[t].pc.Looked? { FoundSelf(s, t, s'); } else { AskedSelf(s, t, s'); }
  }

  lemma Acquiring(s: State, t: Tid, s': State)
    requires t < |s.threads| && ThreadInv(s, t) && AcquireStep(s, t, s')
    ensures |s'.threads| == |s.threads| && ThreadInv(s', t)
  {
  }

  lemma LockingSelf(s: State, t: Tid, s': State)
    requires t < |s.threads| && ThreadInv(s, t) && LockStep(s, t, s')
    ensures |s'.threads| == |s.threads| && ThreadInv(s', t)
  {
    if LookupStep(s, t, s') { LookingUp(s, t, s'); } else { Acquiring(s, t, s'); }
  }

  lemma FoundOther(s: State, t: Tid, s': State, u: Tid)
    requires t < |s.threads| && LookupStep(s, t, s') && u < |s.threads| && u != t
    requires CreateInv(s, t) && CreateInv(s, u) && ThreadInv(s, t) && ThreadInv(s, u)
    requires s.threads[t].pc.Looked?
    ensures |s'.threads| == |s.threads| && ThreadInv(s', u)
  {
  }

  lemma AskedOther(s: State, t: Tid, s': State, u: Tid)
    requires t < |s.threads| && LookupStep(s, t, s') && u < |s.threads| && u != t
    requires CreateInv(s, t) && CreateInv(s, u) && ThreadInv(s, t) && ThreadInv(s, u)
    requires !s.threads[t].pc.Looked?
    ensures |s'.threads| == |s.threads| && ThreadInv(s', u)
  {
  }

  /** Another thread's place is not touched by these steps. */
  lemma LookupOther(s: State, t: Tid, s': State, u: Tid)
    requires t < |s.threads| && LookupStep(s, t, s') && u < |s.threads| && u != t
    requires CreateInv(s, t) && CreateInv(s, u) && ThreadInv(s, t) && ThreadInv(s, u)
    ensures |s'.threads| == |s.threads| && ThreadInv(s', u)
  {
    if s.threads[t].pc.Looked? { FoundOther(s, t, s', u); } else { AskedOther(s, t, s', u); }
  }

  lemma LockedOther(s: State, t: Tid, s': State, u: Tid)
    requires t < |s.threads| && AcquireStep(s, t, s') && u < |s.threads| && u != t
    requires ThreadInv(s, t) && ThreadInv(s, u)
    requires s.threads[t].pc.Waiting?
    ensures |s'.threads| == |s.threads| && ThreadInv(s', u)
  {
  }

  lemma CountedOther(s: State, t: Tid, s': State, u: Tid)
    requires t < |s.threads| && AcquireStep(s, t, s') && u < |s.threads| && u != t
    requires ThreadInv(s, t) && ThreadInv(s, u)
    requires !s.threads[t].pc.Waiting?
    ensures |s'.threads| == |s.threads| && ThreadInv(s', u)
  {
  }

  lemma AcquireOther(s: State, t: Tid, s': State, u: Tid)
    requires t < |s.threads| && AcquireStep(s, t, s') && u < |s.threads| && u != t
    requires ThreadInv(s, t) && ThreadInv(s, u)
    ensures |s'.threads| == |s.threads| && ThreadInv(s', u)
  {
    if s.threads[t].pc.Waiting? { LockedOther(s, t, s', u); } else { CountedOther(s, t, s', u); }
  }

  lemma LockingOther(s: State, t: Tid, s': State, u: Tid)
    requires t < |s.threads| && LockStep(s, t, s') && u < |s.threads| && u != t
    requires CreateInv(s, t) && CreateInv(s, u) && ThreadInv(s, t) && ThreadInv(s, u)
    ensures |s'.threads| == |s.threads| && ThreadInv(s', u)
  {
    if LookupStep(s, t, s') { LookupOther(s, t, s', u); } else { AcquireOther(s, t, s', u); }
  }

  lemma LookupHolder(s: State, t: Tid, s': State, m: MutexId)
    requires LockInv(s) && t < |s.threads| && LookupStep(s, t, s')
    ensures HolderInv(s', m)
  {
    LockingCreate(s, t, s', t);
    assert HolderInv(s, m) && ThreadInv(s, t);
  }

  lemma AcquireHolder(s: State, t: Tid, s': State, m: MutexId)
    requires LockInv(s) && t < |s.threads| && AcquireStep(s, t, s')
    ensures HolderInv(s', m)
  {
    LockingCreate(s, t, s', t);
    assert HolderInv(s, m) && ThreadInv(s, t);
  }

  lemma LockingHolder(s: State, t: Tid, s': State, m: MutexId)
    requires LockInv(s) && t < |s.threads| && LockStep(s, t, s')
    ensures HolderInv(s', m)
  {
    if LookupStep(s, t, s') { LookupHolder(s, t, s', m); } else { AcquireHolder(s, t, s', m); }
  }

  lemma LookupSeparate(s: State, t: Tid, s': State, o: Order, p: Order)
    requires LockInv(s) && t < |s.threads| && LookupStep(s, t, s')
    ensures Separate(s', o, p)
  {
    assert Separate(s, o, p) && EntryInv(s, o) && EntryInv(s, p);
  }

  lemma AcquireSeparate(s: State, t: Tid, s': State, o: Order, p: Order)
    requires LockInv(s) && t < |s.threads| && AcquireStep(s, t, s')
    ensures Separate(s', o, p)
  {
    assert Separate(s, o, p) && EntryInv(s, o) && EntryInv(s, p);
  }

  lemma LockingSeparate(s: State, t: Tid, s': State, o: Order, p: Order)
    requires LockInv(s) && t < |s.threads| && LockStep(s, t, s')
    ensures Separate(s', o, p)
  {
    if LookupStep(s, t, s') { LookupSeparate(s, t, s', o, p); } else { AcquireSeparate(s, t, s', o, p); }
  }

  lemma ReleaseCreate(s: State, t: Tid, s': State, u: Tid)
    requires LockInv(s) && t < |s.threads| && ReleaseStep(s, t, s') && u < |s.threads|
    ensures Moved(s, t, s') && (s'.createLock.Some? ==> s'.createLock.value < |s'.threads|) && CreateInv(s', u)
  {
    assert CreateInv(s, t) && CreateInv(s, u) && ThreadInv(s, t);
  }

  lemma CountOutCreate(s: State, t: Tid, s': State, u: Tid)
    requires LockInv(s) && t < |s.threads| && CountOutStep(s, t, s') && u < |s.threads|
    ensures Moved(s, t, s') && (s'.createLock.Some? ==> s'.createLock.value < |s'.threads|) && CreateInv(s', u)
  {
    assert CreateInv(s, t) && CreateInv(s, u) && ThreadInv(s, t);
  }

  lemma UnlockingCreate(s: State, t: Tid, s': State, u: Tid)
    requires LockInv(s) && t < |s.threads| && UnlockStep(s, t, s') && u < |s.threads|
    ensures Moved(s, t, s') && (s'.createLock.Some? ==> s'.createLock.value < |s'.threads|) && CreateInv(s', u)
  {
    if ReleaseStep(s, t, s') { ReleaseCreate(s, t, s', u); } else { CountOutCreate(s, t, s', u); }
  }

  lemma ReleaseCount(s: State, t: Tid, s': State, o: Order)
    requires t < |s.threads| && ThreadInv(s, t) && ReleaseStep(s, t, s') && o in s'.orderLocks
    requires o in s.orderLocks && EntryInv(s, o) && Separate(s, o, s.threads[t].order)
    ensures s'.orderLocks[o] in s'.mutexes && s'.mutexes[s'.orderLocks[o]].refCount == |Users(s', o)|
  {
    UsersAfter(s, t, s', o);
  }

  lemma CountOutCount(s: State, t: Tid, s': State, o: Order)
    requires t < |s.threads| && ThreadInv(s, t) && CountOutStep(s, t, s') && o in s'.orderLocks
    requires o in s.orderLocks && EntryInv(s, o) && Separate(s, o, s.threads[t].order)
    ensures s'.orderLocks[o] in s'.mutexes && s'.mutexes[s'.orderLocks[o]].refCount == |Users(s', o)|
  {
    UsersAfter(s, t, s', o);
  }

  /** Only the step that counts a thread out changes a refCount, and it is the step that ends its use. */
  lemma UnlockingCount(s: State, t: Tid, s': State, o: Order)
    requires t < |s.threads| && ThreadInv(s, t) && UnlockStep(s, t, s') && o in s'.orderLocks
    requires o in s.orderLocks && EntryInv(s, o) && Separate(s, o, s.threads[t].order)
    ensures s'.orderLocks[o] in s'.mutexes && s'.mutexes[s'.orderLocks[o]].refCount == |Users(s', o)|
  {
    if ReleaseStep(s, t, s') { ReleaseCount(s, t, s', o); } else { CountOutCount(s, t, s', o); }
  }

  lemma UnlockingPins(s: State, t: Tid, s': State, o: Order)
    requires LockInv(s) && t < |s.threads| && UnlockStep(s, t, s') && o in s'.orderLocks
    ensures o in s.orderLocks && Justified(s', o)
  {
    UnlockingCreate(s, t, s', t);
    UsersAfter(s, t, s', o);
    assert EntryInv(s, o) && ThreadInv(s, t);
    JustifiedAfter(s, t, s', o);
  }

  lemma UnlockingEntry(s: State, t: Tid, s': State, o: Order)
    requires LockInv(s) && t < |s.threads| && UnlockStep(s, t, s')
    ensures EntryInv(s', o)
  {
    if o in s'.orderLocks {
      UnlockingPins(s, t, s', o);
      assert EntryInv(s, o) && ThreadInv(s, t) && Separate(s, o, s.threads[t].order);
      UnlockingCount(s, t, s', o);
    }
  }

  lemma LeavingThread(s: State, t: Tid, s': State, u: Tid)
    requires t < |s.threads| && u < |s.threads| && ReleaseStep(s, t, s') && ThreadInv(s, t) && ThreadInv(s, u)
    requires Separate(s, s.threads[t].order, s.threads[u].order) && CreateInv(s, u)
    ensures Moved(s, t, s') && ThreadInv(s', u)
  {
  }

  lemma Decrementing(s: State, t: Tid, s': State, u: Tid)
    requires t < |s.threads| && u < |s.threads| && CountOutStep(s, t, s') && ThreadInv(s, t) && ThreadInv(s, u)
    requires !s.threads[t].pc.Dropped?
    requires s.threads[t].pc.Retaking?
    ensures Moved(s, t, s') && ThreadInv(s', u)
  {
  }

  lemma Switching(s: State, t: Tid, s': State, u: Tid)
    requires t < |s.threads| && u < |s.threads| && CountOutStep(s, t, s') && ThreadInv(s, t) && ThreadInv(s, u)
    requires !s.threads[t].pc.Dropped?
    requires !s.threads[t].pc.Retaking?
    ensures Moved(s, t, s') && ThreadInv(s', u)
  {
  }

  lemma CountingOut(s: State, t: Tid, s': State, u: Tid)
    requires t < |s.threads| && u < |s.threads| && CountOutStep(s, t, s') && ThreadInv(s, t) && ThreadInv(s, u)
    requires !s.threads[t].pc.Dropped?
    ensures Moved(s, t, s') && ThreadInv(s', u)
  {
    if s.threads[t].pc.Retaking? { Decrementing(s, t, s', u); } else { Switching(s, t, s', u); }
  }

  lemma DroppingEntry(s: State, t: Tid, s': State, u: Tid)
    requires t < |s.threads| && u < |s.threads| && CountOutStep(s, t, s') && ThreadInv(s, t) && ThreadInv(s, u)
    requires s.threads[t].pc.Dropped?
    requires u != t && s.threads[u].order == s.threads[t].order && s.mutexes[s.threads[t].m].refCount == 0 ==>
               !Pinned(s.threads[u].pc) && !s.threads[u].pc.Looked?
    ensures Moved(s, t, s') && ThreadInv(s', u)
  {
  }

  lemma UnlockingThread(s: State, t: Tid, s': State, u: Tid)
    requires LockInv(s) && t < |s.threads| && UnlockStep(s, t, s') && u < |s.threads|
    ensures Moved(s, t, s') && ThreadInv(s', u)
  {
    assert ThreadInv(s, t) && ThreadInv(s, u) && CreateInv(s, t) && CreateInv(s, u);
    var pc := s.threads[t].pc;
    if pc.Dropped? {
      if u != t && s.threads[u].order == s.threads[t].order && s.mutexes[s.threads[t].m].refCount == 0 {
        LastOne(s, t, u);
      }
      DroppingEntry(s, t, s', u);
    } else if ReleaseStep(s, t, s') {
      assert Separate(s, s.threads[t].order, s.threads[u].order);
      LeavingThread(s, t, s', u);
    } else {
      CountingOut(s, t, s', u);
    }
  }

  lemma ReleaseHolder(s: State, t: Tid, s': State, m: MutexId)
    requires LockInv(s) && t < |s.threads| && ReleaseStep(s, t, s')
    ensures HolderInv(s', m)
  {
    UnlockingCreate(s, t, s', t);
    assert HolderInv(s, m) && ThreadInv(s, t);
  }

  lemma CountOutHolder(s: State, t: Tid, s': State, m: MutexId)
    requires LockInv(s) && t < |s.threads| && CountOutStep(s, t, s')
    ensures HolderInv(s', m)
  {
    UnlockingCreate(s, t, s', t);
    assert HolderInv(s, m) && ThreadInv(s, t);
  }

  lemma UnlockingHolder(s: State, t: Tid, s': State, m: MutexId)
    requires LockInv(s) && t < |s.threads| && UnlockStep(s, t, s')
    ensures HolderInv(s', m)
  {
    if ReleaseStep(s, t, s') { ReleaseHolder(s, t, s', m); } else { CountOutHolder(s, t, s', m); }
  }

  lemma ReleaseSeparate(s: State, t: Tid, s': State, o: Order, p: Order)
    requires LockInv(s) && t < |s.threads| && ReleaseStep(s, t, s')
    ensures Separate(s', o, p)
  {
    assert Separate(s, o, p) && EntryInv(s, o) && EntryInv(s, p);
  }

  lemma CountOutSeparate(s: State, t: Tid, s': State, o: Order, p: Order)
    requires LockInv(s) && t < |s.threads| && CountOutStep(s, t, s')
    ensures Separate(s', o, p)
  {
    assert Separate(s, o, p) && EntryInv(s, o) && EntryInv(s, p);
  }

  lemma UnlockingSeparate(s: State, t: Tid, s': State, o: Order, p: Order)
    requires LockInv(s) && t < |s.threads| && UnlockStep(s, t, s')
    ensures Separate(s', o, p)
  {
    if ReleaseStep(s, t, s') { ReleaseSeparate(s, t, s', o, p); } else { CountOutSeparate(s, t, s', o, p); }
  }

  /** The step moves thread `t` within the critical section or away from the locks, and touches no lock. */
  ghost predicate InsideStep(s: State, t: Tid, s': State)
    requires t < |s.threads|
  {
    && Moved(s, t, s') && s'.threads[t].m == s.threads[t].m
    && s'.createLock == s.createLock && s'.orderLocks == s.orderLocks && s'.mutexes == s.mutexes
    && s'.worthless == s.worthless && s'.rowLocks == s.rowLocks
    && Aside(s.threads[t].pc, s'.threads[t].pc)
  }

  predicate Aside(from: Pc, to: Pc) {
    (HoldsOrder(from) && HoldsOrder(to) && !to.Loaded?) || (AwayFromLocks(from) && AwayFromLocks(to))
  }

  /** Where a body step can lead. */
  predicate Leads(th: Thread, to: Pc) {
    var from := th.pc;
    if Unlocked(th.job) then
      || ((from.Start? || from.Opening? || from.Noted?) && to.Done?)
      || (from.Start? && to.Opening?)
      || ((from.Start? || from.Opening?) && to.Noted?)
    else
      || ((from.Reading? || from.Deciding? || from.Crediting?) && to.Unlocking?)
      || (from.Reading? && to.Deciding?)
      || (from.Deciding? && to.Crediting?)
  }

  lemma WorkLeads(s: State, th: Thread, d: Deed, pc: Pc)
    requires MayWork(s, th, d, pc, true) && !Unlocked(th.job)
    ensures Leads(th, pc)
  {
  }

  lemma RunLeads(s: State, th: Thread, d: Deed, pc: Pc)
    requires MayRun(s, th, d, pc, true) && Unlocked(th.job)
    ensures Leads(th, pc)
  {
  }

  lemma MayLeads(s: State, th: Thread, d: Deed, pc: Pc)
    requires May(s, th, d, pc, true)
    ensures Leads(th, pc)
  {
    if Unlocked(th.job) { RunLeads(s, th, d, pc); } else { WorkLeads(s, th, d, pc); }
  }

  lemma BodyLeads(s: State, t: Tid, s': State) returns (d: Deed, pc: Pc)
    requires t < |s.threads| && BodyStep(s, t, s', true)
    ensures s' == At(Do(s, s.threads[t].order, d), t, pc) && Leads(s.threads[t], pc)
  {
    d, pc :| Does(s, t, s', d, pc, true);
    MayLeads(s, s.threads[t], d, pc);
  }

  /** A failure is never needed for a step. */
  lemma CleanIsStep(s: State, t: Tid, s': State)
    requires t < |s.threads| && BodyStep(s, t, s', false)
    ensures BodyStep(s, t, s', true)
  {
    var d, pc :| Does(s, t, s', d, pc, false);
    assert Does(s, t, s', d, pc, true);
  }

  lemma DeedShape(s: State, t: Tid, d: Deed, pc: Pc)
    requires t < |s.threads| && Aside(s.threads[t].pc, pc)
    ensures InsideStep(s, t, At(Do(s, s.threads[t].order, d), t, pc))
  {
  }

  lemma BodyShape(s: State, t: Tid, s': State)
    requires t < |s.threads| && BodyStep(s, t, s', true)
    ensures InsideStep(s, t, s')
  {
    var d, pc := BodyLeads(s, t, s');
    DeedShape(s, t, d, pc);
  }

  predicate AwayFromLocks(pc: Pc) {
    pc.Start? || pc.Opening? || pc.Noted? || pc.Done?
  }

  lemma BodyKeeps(s: State, t: Tid, s': State)
    requires LockInv(s) && t < |s.threads| && InsideStep(s, t, s')
    ensures LockInv(s')
  {
    forall u: Tid | u < |s'.threads| ensures CreateInv(s', u) && ThreadInv(s', u) {
      assert CreateInv(s, u) && ThreadInv(s, u);
    }
    forall o ensures EntryInv(s', o) {
      assert EntryInv(s, o);
      UsersAfter(s, t, s', o);
      if o in s.orderLocks {
        JustifiedAfter(s, t, s', o);
      }
    }
    forall o, p ensures Separate(s', o, p) {
      assert Separate(s, o, p);
    }
    forall m ensures HolderInv(s', m) {
      assert HolderInv(s, m);
    }
  }

  lemma LockInvKeeps(s: State, t: Tid, s': State)
    requires LockInv(s) && t < |s.threads| && ThreadStep(s, t, s', true)
    ensures Moved(s, t, s') && LockInv(s')
  {
    if BodyStep(s, t, s', true) {
      BodyShape(s, t, s');
      BodyKeeps(s, t, s');
    } else if LockStep(s, t, s') {
      LockingCreate(s, t, s', t);
      forall u: Tid | u < |s'.threads| ensures CreateInv(s', u) && ThreadInv(s', u) {
        LockingCreate(s, t, s', u);
        assert CreateInv(s, t) && CreateInv(s, u) && ThreadInv(s, t) && ThreadInv(s, u);
        if u == t { LockingSelf(s, t, s'); } else { LockingOther(s, t, s', u); }
      }
      forall o ensures EntryInv(s', o) { LockingEntry(s, t, s', o); }
      forall o, p ensures Separate(s', o, p) { LockingSeparate(s, t, s', o, p); }
      forall m ensures HolderInv(s', m) { LockingHolder(s, t, s', m); }
    } else {
      UnlockingCreate(s, t, s', t);
      forall u: Tid | u < |s'.threads| ensures CreateInv(s', u) && ThreadInv(s', u) {
        UnlockingCreate(s, t, s', u);
        UnlockingThread(s, t, s', u);
      }
      forall o ensures EntryInv(s', o) { UnlockingEntry(s, t, s', o); }
      forall o, p ensures Separate(s', o, p) { UnlockingSeparate(s, t, s', o, p); }
      forall m ensures HolderInv(s', m) { UnlockingHolder(s, t, s', m); }
    }
  }

  // ----- the ledger -----

  /** Where a step of LockOrder or UnlockOrder can lead. */
  predicate Advances(from: Pc, to: Pc) {
    || (from.Start? && to.HasCreate?)
    || (from.HasCreate? && to.Looked?)
    || (from.Looked? && to.Got?)
    || (from.Got? && to.Counted?)
    || (from.Counted? && to.Waiting?)
    || (from.Waiting? && to.Reading?)
    || (from.Unlocking? && (to.Loaded? || to.Lost?))
    || (from.Loaded? && (to.Released? || to.Crashed?))
    || (from.Released? && to.Retaking?)
    || (from.Retaking? && to.Dropped?)
    || (from.Dropped? && to.Cleaned?)
    || (from.Cleaned? && to.Done?)
  }

  ghost predicate LocksOnly(s: State, t: Tid, s': State) {
    && s'.orders == s.orders && s'.worthless == s.worthless && s'.rowLocks == s.rowLocks
    && s'.stored == s.stored && s'.credits == s.credits
    && |s'.threads| == |s.threads| && t < |s.threads| && Advances(s.threads[t].pc, s'.threads[t].pc)
    && (s.threads[t].pc.Start? ==> !Unlocked(s.threads[t].job))
  }

  lemma LookupOnly(s: State, t: Tid, s': State)
    requires t < |s.threads| && LookupStep(s, t, s')
    ensures LocksOnly(s, t, s')
  {
  }

  lemma AcquireOnly(s: State, t: Tid, s': State)
    requires t < |s.threads| && AcquireStep(s, t, s')
    ensures LocksOnly(s, t, s')
  {
  }

  lemma ReleaseOnly(s: State, t: Tid, s': State)
    requires t < |s.threads| && ReleaseStep(s, t, s')
    ensures LocksOnly(s, t, s')
  {
  }

  lemma CountOutOnly(s: State, t: Tid, s': State)
    requires t < |s.threads| && CountOutStep(s, t, s')
    ensures LocksOnly(s, t, s')
  {
  }

  /** LockOrder and UnlockOrder leave orders and quota alone, and go through their points in order. */
  lemma LocksMove(s: State, t: Tid, s': State)
    requires t < |s.threads| && (LockStep(s, t, s') || UnlockStep(s, t, s'))
    ensures LocksOnly(s, t, s')
  {
    if LookupStep(s, t, s') {
      LookupOnly(s, t, s');
    } else if AcquireStep(s, t, s') {
      AcquireOnly(s, t, s');
    } else if ReleaseStep(s, t, s') {
      ReleaseOnly(s, t, s');
    } else {
      CountOutOnly(s, t, s');
    }
  }

  lemma OnlyBooks(s: State, t: Tid, s': State)
    requires LocksOnly(s, t, s') && JobInv(s, t) && Moved(s, t, s')
    ensures BookStep(s, t, s')
  {
  }

  /** The thread may credit its order now: it decided to on a pending order, or the order is pending. */
  ghost predicate MayPay(s: State, th: Thread) {
    && Outcome(s, th) == Some(Success) && (HoldsOrder(th.pc) || Unlocked(th.job))
    && (Poised(s, th) || (th.order in s.orders && s.orders[th.order] == Pending))
  }

  /** What any step of thread `t` does to the order book: it touches its own order only, never makes it pending, credits
      it only if it may, and is poised afterwards only if it was or found the order pending. */
  ghost predicate BookStep(s: State, t: Tid, s': State)
    requires t < |s.threads|
  {
    var th, o := s.threads[t], s.threads[t].order;
    && Moved(s, t, s') && s'.worthless == s.worthless && s'.rowLocks == s.rowLocks
    && (forall p :: p != o ==> (p in s'.orders <==> p in s.orders) && (p in s'.stored <==> p in s.stored))
    && (forall p :: p != o && p in s.orders ==> s'.orders[p] == s.orders[p])
    && (o in s.orders ==> o in s'.orders && (s'.orders[o] == s.orders[o] || s'.orders[o] != Pending))
    && s.stored <= s'.stored
    && (s'.credits == s.credits ||
        (s'.credits == s.credits + multiset{o} && MayPay(s, th) &&
         o in s'.stored && o in s'.orders && s'.orders[o] != Pending))
    && (Poised(s', s'.threads[t]) ==>
          s'.credits == s.credits && (Poised(s, th) || (o in s.orders && s.orders[o] == Pending)))
    && (s'.threads[t].pc.Deciding? || s'.threads[t].pc.Crediting? || s'.threads[t].pc.Noted? ==> o in s'.orders)
    && (s'.threads[t].pc.Crediting? ==> o in s'.stored && s'.orders[o] != Pending)
    && JobInv(s', t)
  }

  /** What a body step decides, before it is done. */
  ghost predicate DeedFits(s: State, t: Tid, d: Deed, pc: Pc)
    requires t < |s.threads|
  {
    var th := s.threads[t];
    var o, next := th.order, th.(pc := pc);
    && (d.Store? ==> o in s.orders && d.st != Pending)
    && (d.Pay? || d.Credit? ==> MayPay(s, th))
    && (d.Credit? ==> o in s.stored && o in s.orders && s.orders[o] != Pending)
    && (Poised(s, next) ==> (d.Idle? || d.Store?) && (Poised(s, th) || Has(s, o, Pending)))
    && (pc.Deciding? || pc.Crediting? || pc.Noted? ==> o in s.orders)
    && (pc.Crediting? ==> d == Store(Success))
    && JobFits(s, next)
  }

  lemma WorkFits(s: State, t: Tid, d: Deed, pc: Pc)
    requires t < |s.threads| && JobInv(s, t) && CreditThreadInv(s, t) && MayWork(s, s.threads[t], d, pc, true)
    requires !Unlocked(s.threads[t].job)
    ensures DeedFits(s, t, d, pc)
  {
  }

  lemma RunFits(s: State, t: Tid, d: Deed, pc: Pc)
    requires t < |s.threads| && JobInv(s, t) && CreditThreadInv(s, t) && MayRun(s, s.threads[t], d, pc, true)
    requires Unlocked(s.threads[t].job)
    ensures DeedFits(s, t, d, pc)
  {
  }

  lemma StoreBooks(s: State, t: Tid, st: Status, pc: Pc)
    requires t < |s.threads| && DeedFits(s, t, Store(st), pc)
    ensures BookStep(s, t, At(StoreStatus(s, s.threads[t].order, st), t, pc))
  {
  }

  lemma CreditBooks(s: State, t: Tid, pc: Pc)
    requires t < |s.threads| && DeedFits(s, t, Credit, pc)
    ensures BookStep(s, t, At(AddCredit(s, s.threads[t].order), t, pc))
  {
  }

  lemma PayBooks(s: State, t: Tid, pc: Pc)
    requires t < |s.threads| && DeedFits(s, t, Pay, pc)
    ensures BookStep(s, t, At(Do(s, s.threads[t].order, Pay), t, pc))
  {
  }

  lemma IdleBooks(s: State, t: Tid, pc: Pc)
    requires t < |s.threads| && DeedFits(s, t, Idle, pc)
    ensures BookStep(s, t, At(s, t, pc))
  {
  }

  lemma BodyFits(s: State, t: Tid, s': State) returns (d: Deed, pc: Pc)
    requires t < |s.threads| && BodyStep(s, t, s', true) && JobInv(s, t) && CreditThreadInv(s, t)
    ensures s' == At(Do(s, s.threads[t].order, d), t, pc) && DeedFits(s, t, d, pc)
  {
    d, pc :| Does(s, t, s', d, pc, true);
    if Unlocked(s.threads[t].job) { RunFits(s, t, d, pc); } else { WorkFits(s, t, d, pc); }
  }

  lemma BodyBooks(s: State, t: Tid, s': State)
    requires t < |s.threads| && BodyStep(s, t, s', true) && JobInv(s, t) && CreditThreadInv(s, t)
    ensures BookStep(s, t, s')
  {
    var d, pc := BodyFits(s, t, s');
    match d {
      case Idle => IdleBooks(s, t, pc);
      case Store(st) => StoreBooks(s, t, st, pc);
      case Credit => CreditBooks(s, t, pc);
      case Pay => PayBooks(s, t, pc);
    }
  }

  lemma LockBooks(s: State, t: Tid, s': State)
    requires t < |s.threads| && (LockStep(s, t, s') || UnlockStep(s, t, s')) && JobInv(s, t) && Moved(s, t, s')
    ensures BookStep(s, t, s')
  {
    LocksMove(s, t, s');
    OnlyBooks(s, t, s');
  }

  lemma StepBooks(s: State, t: Tid, s': State)
    requires Inv(s) && t < |s.threads| && ThreadStep(s, t, s', true) && Moved(s, t, s')
    ensures BookStep(s, t, s')
  {
    assert CreditThreadInv(s, t) && JobInv(s, t);
    if BodyStep(s, t, s', true) { BodyBooks(s, t, s'); } else { LockBooks(s, t, s'); }
  }

  /** Which orders are in conflict is fixed by who calls. */
  lemma ConflictStays(s: State, t: Tid, s': State, o: Order)
    requires t < |s.threads| && Moved(s, t, s') && s'.worthless == s.worthless && s'.rowLocks == s.rowLocks
    ensures Conflict(s', o) <==> Conflict(s, o)
  {
    forall x: Tid, y: Tid ensures Clash(s', o, x, y) <==> Clash(s, o, x, y) {}
  }

  /** Without conflict two threads are never both about to credit one order. */
  lemma NoRival(s: State, t: Tid, u: Tid)
    requires LockInv(s) && t < |s.threads| && u < |s.threads| && t != u && s.threads[t].order == s.threads[u].order
    requires JobInv(s, t) && JobInv(s, u) && MayPay(s, s.threads[t]) && !Conflict(s, s.threads[t].order)
    ensures !Poised(s, s.threads[u])
  {
    var o, th := s.threads[t].order, s.threads[u];
    assert !Clash(s, o, t, u) && !Clash(s, o, u, t);
    if HoldsOrder(s.threads[t].pc) && HoldsOrder(th.pc) { OneHolder(s, t, u); }
  }

  lemma CreditOrderKeeps(s: State, t: Tid, s': State, o: Order)
    requires CreditOrderInv(s, o) && t < |s.threads| && BookStep(s, t, s') && CreditThreadInv(s, t)
    ensures CreditOrderInv(s', o)
  {
    ConflictStays(s, t, s', o);
  }

  lemma CreditThreadKeeps(s: State, t: Tid, s': State, u: Tid)
    requires Inv(s) && t < |s.threads| && BookStep(s, t, s') && u < |s.threads|
    ensures CreditThreadInv(s', u) && JobInv(s', u)
  {
    var o := s.threads[u].order;
    assert CreditThreadInv(s, t) && CreditThreadInv(s, u) && JobInv(s, t) && JobInv(s, u);
    assert CreditOrderInv(s, o);
    ConflictStays(s, t, s', o);
    if u != t && s.threads[t].order == o && s'.credits != s.credits && !Conflict(s, o) { NoRival(s, t, u); }
  }

  lemma CreditInvKeeps(s: State, t: Tid, s': State)
    requires Inv(s) && t < |s.threads| && ThreadStep(s, t, s', true) && Moved(s, t, s')
    ensures CreditInv(s')
  {
    StepBooks(s, t, s');
    forall o ensures CreditOrderInv(s', o) {
      assert CreditOrderInv(s, o) && CreditThreadInv(s, t);
      CreditOrderKeeps(s, t, s', o);
    }
    forall u: Tid | u < |s'.threads| ensures CreditThreadInv(s', u) && JobInv(s', u) {
      CreditThreadKeeps(s, t, s', u);
    }
  }

  /** Every step of the system keeps the invariant. */
  lemma InvKeeps(s: State, s': State)
    requires Inv(s) && Next(s, s')
    ensures Inv(s')
  {
    if t: Tid :| t < |s.threads| && ThreadStep(s, t, s', true) {
      LockInvKeeps(s, t, s');
      CreditInvKeeps(s, t, s');
    } else {
      InterferenceKeeps(s, s');
    }
  }

  lemma InterferenceKeeps(s: State, s': State)
    requires Inv(s) && Interference(s, s')
    ensures Inv(s')
  {
    forall o ensures Conflict(s', o) <==> Conflict(s, o) {
      forall x: Tid, y: Tid ensures Clash(s', o, x, y) <==> Clash(s, o, x, y) {}
    }
    forall u: Tid | u < |s'.threads|
      ensures CreateInv(s', u) && ThreadInv(s', u) && CreditThreadInv(s', u) && JobInv(s', u)
    {
      assert CreateInv(s, u) && ThreadInv(s, u) && CreditThreadInv(s, u) && JobInv(s, u);
    }
    forall o ensures EntryInv(s', o) && CreditOrderInv(s', o) {
      assert EntryInv(s, o) && Users(s', o) == Users(s, o) && CreditOrderInv(s, o);
      assert Justified(s, o) ==> Justified(s', o);
    }
    forall o, p ensures Separate(s', o, p) { assert Separate(s, o, p); }
    forall m ensures HolderInv(s', m) { assert HolderInv(s, m); }
  }

  lemma InitInv(s: State)
    requires Init(s)
    ensures Inv(s)
  {
    forall t: Tid | t < |s.threads|
      ensures CreateInv(s, t) && ThreadInv(s, t) && CreditThreadInv(s, t) && JobInv(s, t)
    {
      assert s.threads[t].pc == Start;
    }
  }

  /** The invariant holds in every state of every run. */
  lemma {:induction false} RunInv(r: seq<State>, i: nat)
    requires Run(r) && i < |r|
    ensures Inv(r[i])
  {
    if i == 0 {
      InitInv(r[0]);
    } else {
      RunInv(r, i - 1);
      assert Next(r[i - 1], r[i - 1 + 1]);
      InvKeeps(r[i - 1], r[i]);
    }
  }

  // ----- what every run guarantees -----

  /** No two threads are ever inside the critical section of one order. */
  lemma MutualExclusion(r: seq<State>, i: nat, t: Tid, u: Tid)
    requires Run(r) && i < |r| && t < |r[i].threads| && u < |r[i].threads|
    requires HoldsOrder(r[i].threads[t].pc) && HoldsOrder(r[i].threads[u].pc)
    requires r[i].threads[t].order == r[i].threads[u].order
    ensures t == u
  {
    RunInv(r, i);
    OneHolder(r[i], t, u);
  }

  /** refCount counts the threads between increment and decrement; while createLock is free an entry
      exists exactly when that count is positive; UnlockOrder never misses its entry, never unlocks
      another order's mutex and never unlocks a free one. */
  lemma LockTableExact(r: seq<State>, i: nat)
    requires Run(r) && i < |r|
    ensures forall o :: o in r[i].orderLocks ==>
              r[i].orderLocks[o] in r[i].mutexes && r[i].mutexes[r[i].orderLocks[o]].refCount == |Users(r[i], o)|
    ensures r[i].createLock == None ==> forall o :: o in r[i].orderLocks <==> Users(r[i], o) != {}
    ensures forall t: Tid :: t < |r[i].threads| ==>
              var pc, m := r[i].threads[t].pc, r[i].threads[t].m;
              && !pc.Lost? && !pc.Crashed?
              && (pc.Loaded? ==> pc.target == m && m in r[i].mutexes && r[i].mutexes[m].holder == Some(t))
  {
    RunInv(r, i);
    var s := r[i];
    forall o | o in s.orderLocks
      ensures s.orderLocks[o] in s.mutexes && s.mutexes[s.orderLocks[o]].refCount == |Users(s, o)|
    {
      assert EntryInv(s, o);
    }
    if s.createLock == None {
      forall o ensures o in s.orderLocks <==> Users(s, o) != {} {
        if o in s.orderLocks {
          assert EntryInv(s, o);
          var w: Tid :| w < |s.threads| && s.threads[w].order == o && Pinned(s.threads[w].pc);
          assert CreateInv(s, w);
          assert w in Users(s, o);
        } else {
          NoUsers(s, o);
        }
      }
    }
    forall t: Tid | t < |s.threads|
      ensures var pc, m := s.threads[t].pc, s.threads[t].m;
              && !pc.Lost? && !pc.Crashed?
              && (pc.Loaded? ==> pc.target == m && m in s.mutexes && s.mutexes[m].holder == Some(t))
    {
      assert ThreadInv(s, t);
    }
  }

  lemma CreateHolder(s: State)
    requires LockInv(s)
    ensures s.createLock.Some? ==> s.createLock.value < |s.threads| && HoldsCreate(s.threads[s.createLock.value].pc)
  {
    assert s.createLock.Some? ==> CreateInv(s, s.createLock.value);
  }

  /** Once every thread has finished, the table is empty and no mutex is held. */
  lemma NoLockLeak(r: seq<State>, i: nat)
    requires Run(r) && i < |r| && forall t: Tid :: t < |r[i].threads| ==> r[i].threads[t].pc == Done
    ensures r[i].orderLocks == map[] && r[i].createLock == None
    ensures forall m :: m in r[i].mutexes ==> r[i].mutexes[m].holder == None
  {
    RunInv(r, i);
    var s := r[i];
    forall o ensures o !in s.orderLocks {
      assert EntryInv(s, o);
    }
    CreateHolder(s);
    forall m | m in s.mutexes ensures s.mutexes[m].holder == None {
      assert HolderInv(s, m);
    }
  }

  ghost predicate IsSuccess(s: State, o: Order) {
    o in s.orders && s.orders[o] == Success
  }

  /** An order enters `stored` only by the step that stores it as success. */
  ghost predicate StoredRightly(s: State, s': State, o: Order) {
    o in s'.stored ==> o in s.stored || IsSuccess(s', o)
  }

  lemma StoredByBody(s: State, t: Tid, s': State, o: Order)
    requires t < |s.threads| && BodyStep(s, t, s', true)
    ensures StoredRightly(s, s', o)
  {
    var d, pc := BodyLeads(s, t, s');
    DeedStores(s, s.threads[t].order, d, o);
  }

  lemma DeedStores(s: State, p: Order, d: Deed, o: Order)
    ensures StoredRightly(s, Do(s, p, d), o)
  {
  }

  lemma StoredByThread(s: State, t: Tid, s': State, o: Order)
    requires t < |s.threads| && ThreadStep(s, t, s', true)
    ensures StoredRightly(s, s', o)
  {
    if BodyStep(s, t, s', true) {
      StoredByBody(s, t, s', o);
    } else {
      LocksMove(s, t, s');
    }
  }

  lemma StoredByStep(s: State, s': State, o: Order)
    requires Next(s, s') && o in s'.stored
    ensures o in s.stored || IsSuccess(s', o)
  {
    if t: Tid :| t < |s.threads| && ThreadStep(s, t, s', true) { StoredByThread(s, t, s', o); }
  }

  lemma StoredAtFirst(s: State, o: Order)
    requires Init(s) && o in s.stored
    ensures IsSuccess(s, o)
  {
  }

  ghost predicate StoredHonestly(r: seq<State>, i: nat, o: Order) {
    i < |r| && o in r[i].stored ==> IsSuccess(r[i], o) || (i > 0 && o in r[i - 1].stored)
  }

  lemma StoredInRun(r: seq<State>, i: nat, o: Order)
    requires Run(r)
    ensures StoredHonestly(r, i, o)
  {
    if i < |r| && o in r[i].stored {
      if i == 0 { StoredAtFirst(r[0], o); } else { StoredByStep(r[i - 1], r[i - 1 + 1], o); }
    }
  }

  lemma {:induction false} StoredEarlier(r: seq<State>, i: nat, o: Order) returns (j: nat)
    requires i < |r| && o in r[i].stored && forall x: nat :: StoredHonestly(r, x, o)
    ensures j <= i && IsSuccess(r[j], o)
  {
    j := i;
    assert StoredHonestly(r, i, o);
    if !IsSuccess(r[i], o) { j := StoredEarlier(r, i - 1, o); }
  }

  lemma StoredAsSuccess(r: seq<State>, i: nat, o: Order)
    requires Run(r) && i < |r| && o in r[i].stored
    ensures exists j: nat :: j <= i && IsSuccess(r[j], o)
  {
    forall x: nat ensures StoredHonestly(r, x, o) { StoredInRun(r, x, o); }
    var j := StoredEarlier(r, i, o);
  }

  /** Each order without conflict is credited at most once, and every order only after it was stored as success. */
  lemma AtMostOnce(r: seq<State>, i: nat, o: Order)
    requires Run(r) && i < |r|
    ensures !Conflict(r[i], o) ==> r[i].credits[o] <= 1
    ensures r[i].credits[o] > 0 ==> exists j: nat :: j <= i && IsSuccess(r[j], o)
  {
    RunInv(r, i);
    assert CreditOrderInv(r[i], o);
    if r[i].credits[o] > 0 { StoredAsSuccess(r, i, o); }
  }

  // ----- callbacks without the lock -----

  function Last(r: seq<State>): State
    requires r != []
  {
    r[|r| - 1]
  }

  /** A run that goes on from `r`. */
  ghost predicate Extends(r: seq<State>, r': seq<State>) {
    Run(r) && Run(r') && r'[0] == r[0]
  }

  lemma GoesOn(r: seq<State>, s': State)
    requires Run(r) && Next(Last(r), s')
    ensures Extends(r, r + [s']) && Last(r + [s']) == s'
  {
    var r' := r + [s'];
    forall i: nat | i + 1 < |r'| ensures Next(r'[i], r'[i + 1]) {
      if i + 1 < |r| { assert Next(r[i], r[i + 1]); }
    }
  }

  lemma Moves(r: seq<State>, t: Tid, s': State) returns (r': seq<State>)
    requires Run(r) && t < |Last(r).threads| && LockStep(Last(r), t, s')
    ensures Extends(r, r') && Last(r') == s'
  {
    r' := r + [s'];
    assert ThreadStep(Last(r), t, s', true);
    GoesOn(r, s');
  }

  lemma Acts(r: seq<State>, t: Tid, d: Deed, pc: Pc) returns (r': seq<State>)
    requires Run(r) && t < |Last(r).threads| && May(Last(r), Last(r).threads[t], d, pc, true)
    ensures Extends(r, r') && Last(r') == At(Do(Last(r), Last(r).threads[t].order, d), t, pc)
  {
    var s' := At(Do(Last(r), Last(r).threads[t].order, d), t, pc);
    r' := r + [s'];
    assert Does(Last(r), t, s', d, pc, true);
    assert ThreadStep(Last(r), t, s', true);
    GoesOn(r, s');
  }

  /** Nothing has happened but that the order is there. */
  ghost predicate Fresh(s: State, o: Order) {
    && s.createLock == None && s.orderLocks == map[] && s.mutexes == map[]
    && (forall t: Tid :: t < |s.threads| ==> s.threads[t].pc == Start)
    && Has(s, o, Pending) && s.credits[o] == 0
  }

  lemma Created(s: State, o: Order) returns (r: seq<State>)
    requires Init(s) && (o in s.orders ==> s.orders[o] == Pending)
    ensures Run(r) && r[0] == s && Fresh(Last(r), o)
    ensures Last(r).threads == s.threads && Last(r).worthless == s.worthless && Last(r).rowLocks == s.rowLocks
  {
    r := [s];
    if o !in s.orders {
      var s' := StoreStatus(s, o, Pending);
      assert Interference(s, s');
      GoesOn(r, s');
      r := r + [s'];
    }
  }

  /** The state is as the fresh one with thread `u` at `pc`, apart from locks. */
  ghost predicate OnlyMoved(s: State, u: Tid, pc: Pc, s': State)
    requires u < |s.threads|
  {
    && |s'.threads| == |s.threads| && s'.threads[u].pc == pc && Moved(s, u, s')
    && s'.orders == s.orders && s'.credits == s.credits && s'.worthless == s.worthless && s'.rowLocks == s.rowLocks
  }

  /** In a fresh state a thread gets to its order. */
  lemma TakesLock(r: seq<State>, u: Tid, o: Order) returns (r': seq<State>)
    requires Run(r) && Fresh(Last(r), o) && u < |Last(r).threads| && !Unlocked(Last(r).threads[u].job)
    ensures Extends(r, r') && OnlyMoved(Last(r), u, Reading, Last(r'))
  {
    r' := TakesEntry(r, u, o);
    r' := TakesMutex(r', Last(r), u);
  }

  lemma TakesMutex(r: seq<State>, s: State, u: Tid) returns (r': seq<State>)
    requires Run(r) && u < |s.threads| && Last(r) == Held(s, u, Some(u), 0, Got)
    ensures Extends(r, r') && Last(r') == Holding(s, u)
  {
    r' := Moves(r, u, Held(s, u, Some(u), 1, Counted));
    r' := Moves(r', u, Held(s, u, None, 1, Waiting));
    r' := Moves(r', u, Holding(s, u));
  }

  /** The fresh state with the entry of thread `u` made and counted `n` times. */
  function Held(s: State, u: Tid, create: Option<Tid>, n: int, pc: Pc): State
    requires u < |s.threads|
  {
    var o := s.threads[u].order;
    With(s.(createLock := create, orderLocks := map[o := 0], mutexes := map[0 := RefCountedMutex(None, n)]), u, pc, 0)
  }

  function Holding(s: State, u: Tid): State
    requires u < |s.threads|
  {
    Held(s, u, None, 1, Reading).(mutexes := map[0 := RefCountedMutex(Some(u), 1)])
  }

  lemma TakesEntry(r: seq<State>, u: Tid, o: Order) returns (r': seq<State>)
    requires Run(r) && Fresh(Last(r), o) && u < |Last(r).threads| && !Unlocked(Last(r).threads[u].job)
    ensures Extends(r, r') && Last(r') == Held(Last(r), u, Some(u), 0, Got)
  {
    var s := Last(r);
    r' := Moves(r, u, At(s.(createLock := Some(u)), u, HasCreate));
    r' := Moves(r', u, At(s.(createLock := Some(u)), u, Looked(None)));
    var s' := Held(s, u, Some(u), 0, Got);
    assert s' == With(Entered(Last(r'), s.threads[u].order, 0), u, Got, 0);
    r' := Moves(r', u, s');
  }

  /** A callback that would credit the order reads it pending and is poised, if nothing makes it go through at once. */
  lemma GetsPoised(r: seq<State>, u: Tid, o: Order) returns (r': seq<State>)
    requires Run(r) && Fresh(Last(r), o) && u < |Last(r).threads| && Last(r).threads[u].order == o
    requires Outcome(Last(r), Last(r).threads[u]) == Some(Success)
    requires Last(r).rowLocks ==> !Transactional(Last(r).threads[u].job)
    ensures Extends(r, r') && |Last(r').threads| == |Last(r).threads|
    ensures OnlyMoved(Last(r), u, Last(r').threads[u].pc, Last(r'))
    ensures Poised(Last(r'), Last(r').threads[u]) && !Last(r').threads[u].pc.Crediting?
  {
    var th := Last(r).threads[u];
    if Unlocked(th.job) {
      r' := r;
      if th.job == Creem { r' := Acts(r', u, Idle, Opening); }
      r' := Acts(r', u, Idle, Noted(Pending));
    } else {
      r' := TakesLock(r, u, o);
      r' := Acts(r', u, Idle, Deciding(Pending));
    }
  }

  /** A callback without the lock goes through while the order is pending. */
  lemma GoesThrough(r: seq<State>, t: Tid, o: Order) returns (r': seq<State>)
    requires Run(r) && t < |Last(r).threads| && Last(r).threads[t].order == o && Last(r).threads[t].pc == Start
    requires Unlocked(Last(r).threads[t].job) && Has(Last(r), o, Pending)
    ensures Extends(r, r') && Last(r') == At(Do(Last(r), o, Pay), t, Done)
  {
    r' := r;
    if Last(r).threads[t].job == Creem { r' := Acts(r', t, Idle, Opening); }
    var s := Last(r');
    r' := Transacts(r', t, o);
    assert At(Do(s, o, Pay), t, Done) == At(Do(Last(r), o, Pay), t, Done);
  }

  lemma Transacts(r: seq<State>, t: Tid, o: Order) returns (r': seq<State>)
    requires Run(r) && t < |Last(r).threads| && Last(r).threads[t].order == o && Has(Last(r), o, Pending)
    requires var th := Last(r).threads[t]; (th.job == Stripe && th.pc == Start) || (th.job == Creem && th.pc == Opening)
    ensures Extends(r, r') && Last(r') == At(Do(Last(r), o, Pay), t, Done)
  {
    r' := r;
    if !Last(r).rowLocks { r' := Acts(r', t, Idle, Noted(Pending)); }
    r' := Acts(r', t, Pay, Done);
  }

  /** A poised callback credits the order, whatever happened since it read it. */
  lemma PaysOut(r: seq<State>, u: Tid, o: Order) returns (r': seq<State>)
    requires Run(r) && u < |Last(r).threads| && Last(r).threads[u].order == o && JobInv(Last(r), u)
    requires Poised(Last(r), Last(r).threads[u]) && !Last(r).threads[u].pc.Crediting?
    ensures Extends(r, r') && Last(r').credits[o] == Last(r).credits[o] + 1
  {
    var th := Last(r).threads[u];
    if Unlocked(th.job) {
      r' := Acts(r, u, Pay, Done);
    } else if Transactional(th.job) {
      r' := Acts(r, u, Pay, Unlocking);
    } else {
      r' := Acts(r, u, Store(Success), Crediting);
      r' := Acts(r', u, Credit, Unlocking);
    }
  }

  /** One callback reads the pending order, one without the lock goes through, and the first goes on. */
  lemma PaidTwice(s: State, o: Order, t: Tid, u: Tid) returns (r: seq<State>)
    requires Init(s) && (o in s.orders ==> s.orders[o] == Pending) && Clash(s, o, t, u)
    ensures Run(r) && r[0] == s && Last(r).credits[o] == 2
  {
    r := Created(s, o);
    r := GetsPoised(r, u, o);
    r := GoesThrough(r, t, o);
    RunInv(r, |r| - 1);
    assert JobInv(Last(r), u);
    r := PaysOut(r, u, o);
  }

  /** From any start: in every run the order is credited at most once if and only if it was settled before, or no two
      callbacks of it clash: one without the lock, and another that would credit it too and is not shut out by a row
      lock. */
  lemma AtMostOnceIff(s: State, o: Order)
    requires Init(s)
    ensures (forall r: seq<State>, i: nat :: Run(r) && r[0] == s && i < |r| ==> r[i].credits[o] <= 1) <==>
            (o in s.orders && s.orders[o] != Pending) || !Conflict(s, o)
  {
    if o in s.orders && s.orders[o] != Pending {
      SettledAtFirst(s, o);
      forall r: seq<State>, i: nat | Run(r) && r[0] == s && i < |r| ensures r[i].credits[o] <= 1 {
        SettledStays(r, i, o);
      }
    } else if Conflict(s, o) {
      var t: Tid, u: Tid :| Clash(s, o, t, u);
      var r := PaidTwice(s, o, t, u);
      assert r[|r| - 1].credits[o] == 2;
    } else {
      forall r: seq<State>, i: nat | Run(r) && r[0] == s && i < |r| ensures r[i].credits[o] <= 1 {
        SameConflicts(r, i, o);
        AtMostOnce(r, i, o);
      }
    }
  }

  lemma SameConflicts(r: seq<State>, i: nat, o: Order)
    requires Run(r) && i < |r|
    ensures Conflict(r[i], o) <==> Conflict(r[0], o)
  {
    var p := (x: nat) => x < |r| && (Conflict(r[x], o) <==> Conflict(r[0], o));
    forall x: nat | x < i && p(x) ensures p(x + 1) { NextConflicts(r, x, o); }
    Carried(p, i);
  }

  lemma NextConflicts(r: seq<State>, i: nat, o: Order)
    requires Run(r) && i + 1 < |r|
    ensures Conflict(r[i + 1], o) <==> Conflict(r[i], o)
  {
    RunInv(r, i);
    StepConflicts(r[i], r[i + 1], o);
  }

  lemma StepConflicts(s: State, s': State, o: Order)
    requires Inv(s) && Next(s, s')
    ensures Conflict(s', o) <==> Conflict(s, o)
  {
    if t: Tid :| t < |s.threads| && ThreadStep(s, t, s', true) {
      LockInvKeeps(s, t, s');
      StepBooks(s, t, s');
      ConflictStays(s, t, s', o);
    } else {
      forall x: Tid, y: Tid ensures Clash(s', o, x, y) <==> Clash(s, o, x, y) {}
    }
  }

  /** Nothing pays for an order that was not pending at the start. */
  ghost predicate Unpayable(s: State, o: Order) {
    && o in s.orders && s.orders[o] != Pending && s.credits[o] == 0
    && forall t: Tid :: t < |s.threads| && s.threads[t].order == o ==> !Poised(s, s.threads[t])
  }

  lemma UnpayableStays(s: State, s': State, o: Order)
    requires Inv(s) && Next(s, s') && Unpayable(s, o)
    ensures Unpayable(s', o)
  {
    if t: Tid :| t < |s.threads| && ThreadStep(s, t, s', true) {
      LockInvKeeps(s, t, s');
      StepBooks(s, t, s');
    }
  }

  lemma SettledAtFirst(s: State, o: Order)
    requires Init(s) && o in s.orders && s.orders[o] != Pending
    ensures Unpayable(s, o)
  {
  }

  lemma SettledNext(r: seq<State>, i: nat, o: Order)
    requires Run(r) && i + 1 < |r| && Unpayable(r[i], o)
    ensures Unpayable(r[i + 1], o)
  {
    RunInv(r, i);
    UnpayableStays(r[i], r[i + 1], o);
  }

  lemma SettledStays(r: seq<State>, i: nat, o: Order)
    requires Run(r) && i < |r| && Unpayable(r[0], o)
    ensures Unpayable(r[i], o)
  {
    var p := (x: nat) => x < |r| && Unpayable(r[x], o);
    forall x: nat | x < i && p(x) ensures p(x + 1) { SettledNext(r, x, o); }
    Carried(p, i);
  }

  // ----- progress -----

  /** Steps a thread still has to take. */
  function Remaining(pc: Pc): nat {
    match pc
    case Start => 15
    case HasCreate => 14
    case Looked(_) => 13
    case Got => 12
    case Counted => 11
    case Waiting => 10
    case Reading => 9
    case Deciding(_) => 8
    case Crediting => 7
    case Unlocking => 6
    case Loaded(_) => 5
    case Released => 4
    case Retaking => 3
    case Dropped => 2
    case Cleaned => 1
    case Opening => 2
    case Noted(_) => 1
    case Done => 0
    case Lost => 0
    case Crashed => 0
  }

  function Work(threads: seq<Thread>): nat {
    if threads == [] then 0 else Remaining(threads[0].pc) + Work(threads[1..])
  }

  lemma {:induction false} WorkAfter(threads: seq<Thread>, t: nat, th: Thread)
    requires t < |threads|
    ensures Work(threads[t := th]) == Work(threads) - Remaining(threads[t].pc) + Remaining(th.pc)
  {
    if t == 0 {
      assert threads[t := th][1..] == threads[1..];
    } else {
      assert threads[t := th][1..] == threads[1..][t - 1 := th];
      WorkAfter(threads[1..], t - 1, th);
    }
  }

  lemma AdvancesDown(from: Pc, to: Pc)
    requires Advances(from, to)
    ensures Remaining(to) < Remaining(from)
  {
  }

  lemma LeadsDown(th: Thread, pc: Pc)
    requires Leads(th, pc)
    ensures Remaining(pc) < Remaining(th.pc)
  {
  }

  lemma BodyShrinks(s: State, t: Tid, s': State, d: Deed, pc: Pc)
    requires t < |s.threads| && s' == At(Do(s, s.threads[t].order, d), t, pc) && Leads(s.threads[t], pc)
    ensures Remaining(s'.threads[t].pc) < Remaining(s.threads[t].pc)
  {
    LeadsDown(s.threads[t], pc);
    assert s'.threads[t].pc == pc;
  }

  lemma StepShrinks(s: State, s': State)
    requires Inv(s) && Next(s, s')
    ensures Work(s'.threads) + (if s'.threads != s.threads then 1 else 0) <= Work(s.threads)
  {
    if t: Tid :| t < |s.threads| && ThreadStep(s, t, s', true) {
      LockInvKeeps(s, t, s');
      if BodyStep(s, t, s', true) {
        var d, pc := BodyLeads(s, t, s');
        BodyShrinks(s, t, s', d, pc);
      } else {
        LocksMove(s, t, s');
        AdvancesDown(s.threads[t].pc, s'.threads[t].pc);
      }
      WorkAfter(s.threads, t, s'.threads[t]);
    }
  }

  /** How many of the steps of a run were taken by threads rather than by unlocked writers. */
  ghost function ThreadSteps(r: seq<State>): nat {
    if |r| < 2 then 0
    else ThreadSteps(r[..|r| - 1]) + if r[|r| - 1].threads != r[|r| - 2].threads then 1 else 0
  }

  lemma RunPrefix(r: seq<State>, n: nat)
    requires Run(r) && 0 < n <= |r|
    ensures Run(r[..n])
  {
    var q := r[..n];
    forall i: nat | i + 1 < |q| ensures Next(q[i], q[i + 1]) {
      assert Next(r[i], r[i + 1]);
    }
  }

  lemma {:induction false} WorkAtStart(threads: seq<Thread>)
    requires forall t: nat :: t < |threads| ==> threads[t].pc == Start
    ensures Work(threads) == 15 * |threads|
  {
    if threads != [] { WorkAtStart(threads[1..]); }
  }

  /** No run contains more than 15 thread steps per thread, whatever the scheduler does. */
  lemma RunsAreBounded(r: seq<State>)
    requires Run(r)
    ensures ThreadSteps(r) <= 15 * |r[0].threads|
  {
    StepsAndWork(r);
    WorkAtStart(r[0].threads);
  }

  lemma {:induction false} StepsAndWork(r: seq<State>)
    requires Run(r)
    ensures ThreadSteps(r) + Work(r[|r| - 1].threads) <= Work(r[0].threads)
  {
    if |r| >= 2 {
      var n := |r| - 1;
      RunPrefix(r, n);
      StepsAndWork(r[..n]);
      RunInv(r, n - 1);
      assert Next(r[n - 1], r[n - 1 + 1]);
      StepShrinks(r[n - 1], r[n]);
    }
  }

  /** A bound above every identifier in use, so a new one can always be allocated. */
  lemma {:induction false} Above(ids: set<nat>) returns (m: nat)
    ensures forall x :: x in ids ==> x < m
    decreases |ids|
  {
    m := 0;
    if ids != {} {
      var x :| x in ids;
      m := Above(ids - {x});
      assert forall y :: y in ids ==> y == x || y in ids - {x};
      if m <= x { m := x + 1; }
    }
  }

  ghost predicate CanStep(s: State, t: Tid) {
    t < |s.threads| && exists s' :: ThreadStep(s, t, s', false)
  }

  lemma UnblockedLock(s: State, t: Tid)
    requires LockInv(s) && t < |s.threads|
    requires var pc := s.threads[t].pc;
             || (pc.Start? && s.createLock == None && !Unlocked(s.threads[t].job))
             || pc.HasCreate? || pc.Looked? || pc.Got? || pc.Counted?
    ensures CanStep(s, t)
  {
    assert ThreadInv(s, t) && EntryInv(s, s.threads[t].order);
    var o, m := s.threads[t].order, s.threads[t].m;
    var s';
    match s.threads[t].pc {
    case Start => s' := At(s.(createLock := Some(t)), t, HasCreate);
    case HasCreate => s' := At(s, t, Looked(if o in s.orderLocks then Some(s.orderLocks[o]) else None));
    case Looked(Some(x)) => s' := With(s, t, Got, x);
    case Looked(None) =>
      var x := Above(s.mutexes.Keys);
      assert x !in s.mutexes;
      s' := With(Entered(s, o, x), t, Got, x);
    case Got =>
      s' := At(s.(mutexes := s.mutexes[m := s.mutexes[m].(refCount := s.mutexes[m].refCount + 1)]), t, Counted);
    case Counted => s' := At(s.(createLock := None), t, Waiting);
    }
    assert ThreadStep(s, t, s', false);
  }

  lemma UnblockedBody(s: State, t: Tid)
    requires t < |s.threads| && JobInv(s, t)
    requires var pc := s.threads[t].pc;
             || pc.Reading? || pc.Deciding? || pc.Crediting?
             || (Unlocked(s.threads[t].job) && (pc.Start? || pc.Opening? || pc.Noted?))
    ensures CanStep(s, t)
  {
    var th := s.threads[t];
    var d, pc := Course(s, th);
    assert May(s, th, d, pc, false);
    var s' := At(Do(s, th.order, d), t, pc);
    assert Does(s, t, s', d, pc, false);
    assert ThreadStep(s, t, s', false);
  }

  /** What a body does next when nothing fails. */
  lemma Course(s: State, th: Thread) returns (d: Deed, pc: Pc)
    requires JobFits(s, th)
    requires
      || th.pc.Reading? || th.pc.Deciding? || th.pc.Crediting?
      || (Unlocked(th.job) && (th.pc.Start? || th.pc.Opening? || th.pc.Noted?))
    ensures May(s, th, d, pc, false)
  {
    var o := th.order;
    d, pc := Idle, if Unlocked(th.job) then Done else Unlocking;
    if th.pc.Reading? {
      if o in s.orders && (!Transactional(th.job) || !s.rowLocks) {
        pc := Deciding(s.orders[o]);
      } else if Has(s, o, Pending) && Outcome(s, th).Some? {
        d := Pay;
      }
    } else if th.pc.Deciding? {
      if th.pc.seen == Pending && Outcome(s, th).Some? {
        d := if Transactional(th.job) then Pay else Store(Outcome(s, th).value);
        if d == Store(Success) { pc := Crediting; }
      }
    } else if th.pc.Crediting? {
      d := Credit;
    } else if th.pc.Noted? {
      if th.pc.seen == Pending { d := Pay; }
    } else if th.pc.Start? && th.job == Creem {
      if Has(s, o, Pending) { pc := Opening; }
    } else if o in s.orders && !s.rowLocks {
      pc := Noted(s.orders[o]);
    } else if Has(s, o, Pending) {
      d := Pay;
    }
  }

  lemma UnblockedUnlock(s: State, t: Tid)
    requires LockInv(s) && t < |s.threads|
    requires var pc := s.threads[t].pc;
             || pc.Unlocking? || pc.Loaded? || (pc.Released? && s.createLock == None)
             || pc.Retaking? || pc.Dropped? || pc.Cleaned?
    ensures CanStep(s, t)
  {
    assert ThreadInv(s, t) && EntryInv(s, s.threads[t].order);
    var o, m := s.threads[t].order, s.threads[t].m;
    var s';
    match s.threads[t].pc {
    case Unlocking => s' := At(s, t, if o in s.orderLocks then Loaded(s.orderLocks[o]) else Lost);
    case Loaded(x) =>
      s' := With(s.(mutexes := s.mutexes[x := s.mutexes[x].(holder := None)]), t, Released, x);
    case Released => s' := At(s.(createLock := Some(t)), t, Retaking);
    case Retaking =>
      s' := At(s.(mutexes := s.mutexes[m := s.mutexes[m].(refCount := s.mutexes[m].refCount - 1)]), t, Dropped);
    case Dropped =>
      s' := At(if s.mutexes[m].refCount == 0 then s.(orderLocks := s.orderLocks - {o}) else s, t, Cleaned);
    case Cleaned => s' := At(s.(createLock := None), t, Done);
    }
    assert ThreadStep(s, t, s', false);
  }

  lemma UnblockedWait(s: State, t: Tid)
    requires Inv(s) && t < |s.threads| && s.threads[t].pc.Waiting?
    ensures exists u :: CanStep(s, u)
  {
    assert ThreadInv(s, t) && EntryInv(s, s.threads[t].order);
    var m := s.threads[t].m;
    assert HolderInv(s, m);
    match s.mutexes[m].holder
    case None =>
      var s' := At(s.(mutexes := s.mutexes[m := s.mutexes[m].(holder := Some(t))]), t, Reading);
      assert ThreadStep(s, t, s', false);
      assert CanStep(s, t);
    case Some(h) =>
      assert JobInv(s, h);
      if s.threads[h].pc.Unlocking? || s.threads[h].pc.Loaded? {
        UnblockedUnlock(s, h);
      } else {
        UnblockedBody(s, h);
      }
  }

  /** No deadlock: in every state of every run, while some thread is unfinished, some thread can move
      without any help from failures or unlocked writers. */
  lemma NoDeadlock(r: seq<State>, i: nat, t: Tid)
    requires Run(r) && i < |r| && t < |r[i].threads| && r[i].threads[t].pc != Done
    ensures exists u :: CanStep(r[i], u)
  {
    RunInv(r, i);
    var s := r[i];
    var u := if s.createLock.Some? then s.createLock.value else t;
    assert CreateInv(s, u) && ThreadInv(s, u) && JobInv(s, u);
    var pc := s.threads[u].pc;
    if Unlocked(s.threads[u].job) {
      UnblockedBody(s, u);
    } else if pc.Waiting? {
      UnblockedWait(s, u);
    } else if pc.Reading? || pc.Deciding? || pc.Crediting? {
      UnblockedBody(s, u);
    } else if pc.Start? || pc.HasCreate? || pc.Looked? || pc.Got? || pc.Counted? {
      UnblockedLock(s, u);
    } else {
      UnblockedUnlock(s, u);
    }
  }

  // ----- exactly once, when nothing fails -----

  /** A step in which no database call fails and no unlocked writer touches order `o`. */
  ghost predicate CleanNext(s: State, s': State, o: Order) {
    || (exists t: Tid :: t < |s.threads| && ThreadStep(s, t, s', false))
    || (exists p, st :: p != o &&
           (if p in s.orders then st != Pending else st == Pending) && s' == StoreStatus(s, p, st))
  }

  /** Every callback of the order runs under the lock. */
  ghost predicate Guarded(s: State, o: Order) {
    forall t: Tid :: t < |s.threads| && s.threads[t].order == o ==> !Unlocked(s.threads[t].job)
  }

  lemma GuardedStays(s: State, t: Tid, s': State, o: Order)
    requires t < |s.threads| && Moved(s, t, s') && Guarded(s, o)
    ensures Guarded(s', o)
  {
  }

  lemma GuardedHasNone(s: State, o: Order)
    requires Guarded(s, o)
    ensures !Conflict(s, o)
  {
  }

  ghost predicate CleanRun(r: seq<State>, o: Order) {
    && |r| > 0 && Init(r[0]) && o in r[0].orders && r[0].orders[o] == Pending && Guarded(r[0], o)
    && forall i: nat :: i + 1 < |r| ==> CleanNext(r[i], r[i + 1], o)
  }

  predicate PastWork(pc: Pc) {
    || pc.Unlocking? || pc.Loaded? || pc.Released? || pc.Retaking? || pc.Dropped? || pc.Cleaned? || pc.Done?
  }

  ghost predicate OnceThread(s: State, t: Tid, o: Order)
    requires t < |s.threads| && o in s.orders
  {
    var th := s.threads[t];
    th.order == o ==>
      && (th.pc.Deciding? ==> th.pc.seen == s.orders[o])
      && (th.pc.Crediting? ==> s.orders[o] == Success)
      && (PastWork(th.pc) && Outcome(s, th).Some? ==> s.orders[o] != Pending)
  }

  /** Some callback of the order makes `st` of it while it is pending. */
  ghost predicate HasSettler(s: State, o: Order, st: Status) {
    exists t: Tid :: t < |s.threads| && s.threads[t].order == o && Outcome(s, s.threads[t]) == Some(st)
  }

  ghost predicate Paying(s: State, o: Order) {
    exists t: Tid :: t < |s.threads| && s.threads[t].order == o && s.threads[t].pc.Crediting?
  }

  ghost predicate OnceInv(s: State, o: Order) {
    && Inv(s) && Guarded(s, o) && o in s.orders && (s.orders[o] != Pending ==> HasSettler(s, o, s.orders[o]))
    && (if s.orders[o] == Success then s.credits[o] == 1 || Paying(s, o) else s.credits[o] == 0)
    && (forall t: Tid :: t < |s.threads| ==> OnceThread(s, t, o))
  }

  /** What a callback of order `o` does next when nothing fails and it saw what is stored. */
  ghost predicate CleanMove(s: State, th: Thread, d: Deed, pc: Pc)
    requires th.order in s.orders
  {
    var now := s.orders[th.order];
    && HoldsOrder(th.pc) && (pc.Deciding? || pc.Crediting? || pc.Unlocking?)
    && (d.Store? || d.Pay? ==> now == Pending && Outcome(s, th) == Some(if d.Pay? then Success else d.st))
    && (d.Credit? <==> th.pc.Crediting?)
    && (d.Store? ==> d.st != Pending)
    && (pc.Deciding? ==> d.Idle? && pc.seen == now)
    && (pc.Crediting? <==> d == Store(Success))
    && (pc.Unlocking? && d.Idle? ==> now != Pending || Outcome(s, th) == None)
  }

  lemma CleanBody(s: State, t: Tid, s': State, o: Order) returns (d: Deed, pc: Pc)
    requires t < |s.threads| && BodyStep(s, t, s', false) && s.threads[t].order == o && !Unlocked(s.threads[t].job)
    requires o in s.orders && OnceThread(s, t, o)
    ensures s' == At(Do(s, o, d), t, pc) && CleanMove(s, s.threads[t], d, pc)
  {
    d, pc :| Does(s, t, s', d, pc, false);
    CleanWork(s, s.threads[t], d, pc);
  }

  lemma CleanWork(s: State, th: Thread, d: Deed, pc: Pc)
    requires th.order in s.orders && !Unlocked(th.job) && May(s, th, d, pc, false)
    requires th.pc.Deciding? ==> th.pc.seen == s.orders[th.order]
    requires th.pc.Crediting? ==> s.orders[th.order] == Success
    ensures CleanMove(s, th, d, pc)
  {
  }

  lemma OnceOther(s: State, t: Tid, o: Order, d: Deed, pc: Pc, u: Tid)
    requires OnceInv(s, o) && t < |s.threads| && s.threads[t].order == o && CleanMove(s, s.threads[t], d, pc)
    requires u < |s.threads| && u != t
    ensures var s' := At(Do(s, o, d), t, pc); o in s'.orders && OnceThread(s', u, o)
  {
    assert OnceThread(s, u, o);
    if HoldsOrder(s.threads[u].pc) && s.threads[u].order == o { OneHolder(s, t, u); }
  }

  lemma OnceSelf(s: State, t: Tid, o: Order, d: Deed, pc: Pc)
    requires OnceInv(s, o) && t < |s.threads| && s.threads[t].order == o && CleanMove(s, s.threads[t], d, pc)
    ensures var s' := At(Do(s, o, d), t, pc); o in s'.orders && OnceThread(s', t, o)
  {
    assert OnceThread(s, t, o);
  }

  lemma OncePaid(s: State, t: Tid, o: Order, d: Deed, pc: Pc)
    requires OnceInv(s, o) && t < |s.threads| && s.threads[t].order == o && CleanMove(s, s.threads[t], d, pc)
    requires s.credits[o] == 0 || !d.Credit?
    ensures var s' := At(Do(s, o, d), t, pc);
      IsSuccess(s', o) ==> s'.credits[o] == 1 || Paying(s', o)
  {
    var s' := At(Do(s, o, d), t, pc);
    if s'.orders[o] == Success {
      if d.Store? {
        assert s'.threads[t].pc.Crediting?;
      } else if d.Idle? && s.credits[o] != 1 {
        var w: Tid :| w < |s.threads| && s.threads[w].order == o && s.threads[w].pc.Crediting?;
        assert s'.threads[w] == s.threads[w];
      }
    }
  }

  lemma SettlerStays(s: State, t: Tid, s': State, o: Order, st: Status)
    requires t < |s.threads| && Moved(s, t, s') && s'.worthless == s.worthless && HasSettler(s, o, st)
    ensures HasSettler(s', o, st)
  {
    var w: Tid :| w < |s.threads| && s.threads[w].order == o && Outcome(s, s.threads[w]) == Some(st);
    assert s'.threads[w].order == o && Outcome(s', s'.threads[w]) == Some(st);
  }

  /** The order leaves pending only by a callback that means to settle it and can, and then stays. */
  lemma OnlySettlers(s: State, t: Tid, o: Order, d: Deed, pc: Pc)
    requires OnceInv(s, o) && t < |s.threads| && s.threads[t].order == o && CleanMove(s, s.threads[t], d, pc)
    ensures var s' := At(Do(s, o, d), t, pc);
      && o in s'.orders && (s'.orders[o] != Pending ==> HasSettler(s', o, s'.orders[o]))
      && (s'.orders[o] != Success ==> s'.credits[o] == 0)
  {
    var s' := At(Do(s, o, d), t, pc);
    assert OnceThread(s, t, o);
    if s'.orders[o] != Pending {
      assert HasSettler(s, o, s'.orders[o]) by {
        if s.orders[o] == Pending { assert Outcome(s, s.threads[t]) == Some(s'.orders[o]); }
      }
      SettlerStays(s, t, s', o, s'.orders[o]);
    }
  }

  lemma OnceWorkKeeps(s: State, t: Tid, s': State, o: Order)
    requires OnceInv(s, o) && t < |s.threads| && BodyStep(s, t, s', false) && Moved(s, t, s') && Inv(s')
    requires s.threads[t].order == o
    ensures OnceInv(s', o)
  {
    assert OnceThread(s, t, o);
    var d, pc := CleanBody(s, t, s', o);
    assert CreditThreadInv(s, t);
    GuardedHasNone(s, o);
    GuardedStays(s, t, s', o);
    OnceSelf(s, t, o, d, pc);
    forall u: Tid | u < |s'.threads| ensures OnceThread(s', u, o) {
      if u != t { OnceOther(s, t, o, d, pc, u); }
    }
    OnlySettlers(s, t, o, d, pc);
    OncePaid(s, t, o, d, pc);
  }

  lemma OnceKeeps(s: State, s': State, o: Order)
    requires OnceInv(s, o) && CleanNext(s, s', o)
    ensures OnceInv(s', o)
  {
    if t: Tid :| t < |s.threads| && ThreadStep(s, t, s', false) {
      if BodyStep(s, t, s', false) { CleanIsStep(s, t, s'); }
      LockInvKeeps(s, t, s');
      CreditInvKeeps(s, t, s');
      if s.threads[t].order != o && BodyStep(s, t, s', false) {
        OnceElsewhere(s, t, s', o);
      } else if BodyStep(s, t, s', false) {
        OnceWorkKeeps(s, t, s', o);
      } else {
        OnceLocks(s, t, s', o);
      }
    } else {
      OnceInterference(s, s', o);
    }
  }

  lemma OnceInterference(s: State, s': State, o: Order)
    requires OnceInv(s, o)
    requires exists p, st :: p != o &&
               (if p in s.orders then st != Pending else st == Pending) && s' == StoreStatus(s, p, st)
    ensures OnceInv(s', o)
  {
    assert Interference(s, s');
    InterferenceKeeps(s, s');
    forall u: Tid | u < |s'.threads| ensures OnceThread(s', u, o) { assert OnceThread(s, u, o); }
    assert Paying(s, o) ==> Paying(s', o);
    assert HasSettler(s, o, s.orders[o]) ==> HasSettler(s', o, s'.orders[o]);
  }

  /** A callback without the lock is about another order. */
  lemma OnceElsewhere(s: State, t: Tid, s': State, o: Order)
    requires OnceInv(s, o) && t < |s.threads| && BodyStep(s, t, s', false) && Moved(s, t, s') && Inv(s')
    requires s.threads[t].order != o
    ensures OnceInv(s', o)
  {
    CleanIsStep(s, t, s');
    StepBooks(s, t, s');
    GuardedStays(s, t, s', o);
    forall u: Tid | u < |s'.threads| ensures OnceThread(s', u, o) { assert OnceThread(s, u, o); }
    if s.orders[o] != Pending { SettlerStays(s, t, s', o, s.orders[o]); }
    if Paying(s, o) {
      var w: Tid :| w < |s.threads| && s.threads[w].order == o && s.threads[w].pc.Crediting?;
      assert s'.threads[w] == s.threads[w];
    }
  }

  lemma OnceLocks(s: State, t: Tid, s': State, o: Order)
    requires OnceInv(s, o) && t < |s.threads| && (LockStep(s, t, s') || UnlockStep(s, t, s')) && Moved(s, t, s')
    requires Inv(s')
    ensures OnceInv(s', o)
  {
    LocksMove(s, t, s');
    forall u: Tid | u < |s'.threads| ensures OnceThread(s', u, o) {
      assert OnceThread(s, u, o);
      if u == t { OncePast(s, t, s'); }
    }
    if s.orders[o] != Pending { SettlerStays(s, t, s', o, s.orders[o]); }
    if Paying(s, o) {
      var w: Tid :| w < |s.threads| && s.threads[w].order == o && s.threads[w].pc.Crediting?;
      OncePast(s, t, s');
      assert s'.threads[w] == s.threads[w];
    }
  }

  lemma OncePast(s: State, t: Tid, s': State)
    requires t < |s.threads| && (LockStep(s, t, s') || UnlockStep(s, t, s')) && |s'.threads| == |s.threads|
    ensures PastWork(s'.threads[t].pc) ==> PastWork(s.threads[t].pc)
    ensures !s.threads[t].pc.Crediting?
  {
    LocksMove(s, t, s');
  }

  /** When no database call fails and no other writer touches a pending order, then once all threads have finished: the
      order is credited exactly once if it is stored as success and never otherwise; it is still pending if and only if
      no callback could settle it; and what it is stored as is what some callback makes of it. */
  lemma ExactlyOnce(r: seq<State>, o: Order, i: nat)
    requires CleanRun(r, o) && i < |r|
    requires forall u: Tid :: u < |r[i].threads| ==> r[i].threads[u].pc == Done
    ensures o in r[i].orders && r[i].credits[o] == if r[i].orders[o] == Success then 1 else 0
    ensures r[i].orders[o] == Pending <==> forall st :: !HasSettler(r[i], o, st)
    ensures r[i].orders[o] != Pending ==> HasSettler(r[i], o, r[i].orders[o])
  {
    CleanRunInv(r, o, i);
    var s := r[i];
    forall st | HasSettler(s, o, st) ensures s.orders[o] != Pending {
      var t: Tid :| t < |s.threads| && s.threads[t].order == o && Outcome(s, s.threads[t]) == Some(st);
      assert OnceThread(s, t, o);
    }
  }

  /** So without a report of failure the order is credited exactly once if and only if some callback could complete it,
      and is otherwise still pending. */
  lemma CreditedIff(r: seq<State>, o: Order, i: nat)
    requires CleanRun(r, o) && i < |r|
    requires forall u: Tid :: u < |r[i].threads| ==> r[i].threads[u].pc == Done
    requires !HasSettler(r[i], o, Other("failed"))
    ensures o in r[i].orders && (r[i].credits[o] == 1 <==> HasSettler(r[i], o, Success))
    ensures r[i].credits[o] == 0 ==> r[i].orders[o] == Pending
  {
    ExactlyOnce(r, o, i);
    forall st | HasSettler(r[i], o, st) ensures st == Success {
      var t: Tid :| t < |r[i].threads| && r[i].threads[t].order == o && Outcome(r[i], r[i].threads[t]) == Some(st);
      assert st == Success || st == Other("failed");
    }
  }

  lemma {:induction false} CleanRunInv(r: seq<State>, o: Order, i: nat)
    requires CleanRun(r, o) && i < |r|
    ensures OnceInv(r[i], o)
  {
    if i > 0 {
      CleanRunInv(r, o, i - 1);
      assert CleanNext(r[i - 1], r[i - 1 + 1], o);
      OnceKeeps(r[i - 1], r[i], o);
    }
  }

  // ----- an order worth no quota -----

  /** One admin thread on the pending order `o`, which is worth no quota. */
  function Lone(o: Order, create: bool, entry: bool, holder: Option<Tid>, refCount: int, pc: Pc): State {
    State(if create then Some(0) else None,
          if entry then map[o := 0] else map[],
          if refCount >= 0 then map[0 := RefCountedMutex(holder, refCount)] else map[],
          [Thread(o, Admin, pc, 0)], map[o := Pending], {o}, true, {}, multiset{})
  }

  /** The thread's whole life; no database call fails. */
  function RefusedRun(o: Order): seq<State> {
    [Lone(o, false, false, None, -1, Start), Lone(o, true, false, None, -1, HasCreate),
     Lone(o, true, false, None, -1, Looked(None)), Lone(o, true, true, None, 0, Got),
     Lone(o, true, true, None, 1, Counted), Lone(o, false, true, None, 1, Waiting),
     Lone(o, false, true, Some(0), 1, Reading), Lone(o, false, true, Some(0), 1, Unlocking),
     Lone(o, false, true, Some(0), 1, Loaded(0)), Lone(o, false, true, None, 1, Released),
     Lone(o, true, true, None, 1, Retaking), Lone(o, true, true, None, 0, Dropped),
     Lone(o, true, false, None, 0, Cleaned), Lone(o, false, false, None, 0, Done)]
  }

  lemma LoneMoves(o: Order, create: bool, entry: bool, holder: Option<Tid>, refCount: int, pc: Pc, pc': Pc)
    ensures At(Lone(o, create, entry, holder, refCount, pc), 0, pc') == Lone(o, create, entry, holder, refCount, pc')
  {
    var s := Lone(o, create, entry, holder, refCount, pc);
    assert s.threads[0 := s.threads[0].(pc := pc')] == [Thread(o, Admin, pc', 0)];
  }

  /** The only thread takes a step without failures. */
  ghost predicate LoneStep(s: State, s': State) {
    |s.threads| > 0 && ThreadStep(s, 0, s', false)
  }

  lemma RefusedLookup(o: Order)
    ensures LoneStep(Lone(o, false, false, None, -1, Start), Lone(o, true, false, None, -1, HasCreate))
    ensures LoneStep(Lone(o, true, false, None, -1, HasCreate), Lone(o, true, false, None, -1, Looked(None)))
    ensures LoneStep(Lone(o, true, false, None, -1, Looked(None)), Lone(o, true, true, None, 0, Got))
  {
    LoneMoves(o, true, false, None, -1, Start, HasCreate);
    LoneMoves(o, true, false, None, -1, HasCreate, Looked(None));
    LoneMoves(o, true, true, None, 0, Looked(None), Got);
    assert 0 !in Lone(o, true, false, None, -1, Looked(None)).mutexes;
  }

  lemma RefusedAcquire(o: Order)
    ensures LoneStep(Lone(o, true, true, None, 0, Got), Lone(o, true, true, None, 1, Counted))
    ensures LoneStep(Lone(o, true, true, None, 1, Counted), Lone(o, false, true, None, 1, Waiting))
    ensures LoneStep(Lone(o, false, true, None, 1, Waiting), Lone(o, false, true, Some(0), 1, Reading))
  {
    LoneMoves(o, true, true, None, 1, Got, Counted);
    LoneMoves(o, false, true, None, 1, Counted, Waiting);
    LoneMoves(o, false, true, Some(0), 1, Waiting, Reading);
  }

  lemma RefusedWork(o: Order)
    ensures LoneStep(Lone(o, false, true, Some(0), 1, Reading), Lone(o, false, true, Some(0), 1, Unlocking))
  {
    LoneMoves(o, false, true, Some(0), 1, Reading, Unlocking);
    var s := Lone(o, false, true, Some(0), 1, Reading);
    assert Does(s, 0, Lone(o, false, true, Some(0), 1, Unlocking), Idle, Unlocking, false);
  }

  lemma RefusedRelease(o: Order)
    ensures LoneStep(Lone(o, false, true, Some(0), 1, Unlocking), Lone(o, false, true, Some(0), 1, Loaded(0)))
    ensures LoneStep(Lone(o, false, true, Some(0), 1, Loaded(0)), Lone(o, false, true, None, 1, Released))
    ensures LoneStep(Lone(o, false, true, None, 1, Released), Lone(o, true, true, None, 1, Retaking))
  {
    LoneMoves(o, false, true, Some(0), 1, Unlocking, Loaded(0));
    LoneMoves(o, false, true, None, 1, Loaded(0), Released);
    LoneMoves(o, true, true, None, 1, Released, Retaking);
  }

  lemma RefusedCleanup(o: Order)
    ensures LoneStep(Lone(o, true, true, None, 1, Retaking), Lone(o, true, true, None, 0, Dropped))
    ensures LoneStep(Lone(o, true, true, None, 0, Dropped), Lone(o, true, false, None, 0, Cleaned))
    ensures LoneStep(Lone(o, true, false, None, 0, Cleaned), Lone(o, false, false, None, 0, Done))
  {
    LoneMoves(o, true, true, None, 0, Retaking, Dropped);
    LoneMoves(o, true, false, None, 0, Dropped, Cleaned);
    LoneMoves(o, false, false, None, 0, Cleaned, Done);
  }

  lemma RefusedEntry(o: Order, i: nat)
    requires i < 7
    ensures LoneStep(RefusedRun(o)[i], RefusedRun(o)[i + 1])
  {
    if i < 3 {
      RefusedLookup(o);
    } else if i < 6 {
      RefusedAcquire(o);
    } else {
      RefusedWork(o);
    }
  }

  lemma RefusedExit(o: Order, i: nat)
    requires 7 <= i < 13
    ensures LoneStep(RefusedRun(o)[i], RefusedRun(o)[i + 1])
  {
    if i < 10 { RefusedRelease(o); } else { RefusedCleanup(o); }
  }

  /** An admin completion of an order worth no quota ends, without any failure, with the order pending and not credited.
      */
  lemma WorthlessOrderStaysPending(o: Order)
    ensures var r := RefusedRun(o); var last := r[|r| - 1];
      && CleanRun(r, o) && last.threads == [Thread(o, Admin, Done, 0)]
      && last.orders == map[o := Pending] && last.credits[o] == 0
  {
    var r := RefusedRun(o);
    forall i: nat | i + 1 < |r| ensures CleanNext(r[i], r[i + 1], o) {
      if i < 7 { RefusedEntry(o, i); } else { RefusedExit(o, i); }
    }
  }
}
