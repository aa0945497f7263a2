/**
 The two caches under concurrency: any number of threads run outer gets, outer updates and direct
 gets on the inner provider, interleaved at the points where the source takes or releases a lock
 or touches a map (token/provider.go, token/core/tms.go). A lock is held by exactly the threads
 whose program counter lies inside the critical section.
 */
module CacheProtocol {
  import opened Prelude
  import opened Tms

  type Tid = nat
  type Digest = Bytes -> Bytes

  /** `nested` marks an inner get made by an outer get, which then holds the outer write lock. */
  datatype Pc =
    | Idle
    | GetBegin(key: Key)
    | GetReading(key: Key)
    | GetRead(key: Key, hit: Option<Wrapper>)
    | GetWait(key: Key)
    | InnerBegin(key: Key, nested: bool)
    | InnerReading(key: Key, nested: bool)
    | InnerRead(key: Key, nested: bool, found: Option<Service>)
    | InnerWait(key: Key, nested: bool)
    | InnerCheck(key: Key, nested: bool)
    | InnerMake(key: Key, nested: bool)
    | InnerHeld(key: Key, nested: bool, found: Option<Service>)
    | InnerDone(key: Key, nested: bool, found: Option<Service>)
    | GetStored(key: Key, hit: Option<Wrapper>)
    | GetReleased(key: Key, hit: Option<Wrapper>)
    | Returned(key: Key, hit: Option<Wrapper>)
    | UpdBegin(key: Key, params: Bytes)
    | UpdLocked(key: Key, params: Bytes)
    | UpdInner(key: Key, params: Bytes)
    | UpdApplied(key: Key, params: Bytes, ok: bool)
    | UpdEvict(key: Key, params: Bytes)
    | UpdUnlock(key: Key, params: Bytes, ok: bool)
    | UpdReleased(key: Key, params: Bytes, ok: bool)
    | Updated(key: Key, params: Bytes, ok: bool)
  {
    predicate OuterReads() {
      GetReading? || GetRead?
    }

    predicate OuterWrites() {
      || ((InnerBegin? || InnerReading? || InnerRead? || InnerWait? || InnerCheck? || InnerMake? || InnerHeld?
           || InnerDone?) && nested)
      || GetStored? || UpdLocked? || UpdInner? || UpdApplied? || UpdEvict? || UpdUnlock?
    }

    predicate InnerReads() {
      InnerReading? || InnerRead?
    }

    predicate InnerWrites() {
      InnerCheck? || InnerMake? || InnerHeld? || UpdInner? || UpdApplied?
    }

    /** No operation in flight. */
    predicate Quiet() {
      Idle? || Returned? || Updated? || (InnerDone? && !nested)
    }

    /** An operation has just been called. */
    predicate Starts() {
      GetBegin? || UpdBegin? || (InnerBegin? && !nested)
    }

    /** Between changing the inner service and evicting the wrapper. */
    predicate LeavesStale(k: Key) {
      (UpdApplied? && ok && key == k) || (UpdEvict? && key == k)
    }

    predicate Updates(k: Key) {
      (UpdBegin? || UpdLocked? || UpdInner? || UpdApplied? || UpdEvict? || UpdUnlock?) && key == k
    }
  }

  datatype State = State(outer: map<Key, Wrapper>, inner: map<Key, Service>, pcs: map<Tid, Pc>, next: nat)

  function At(s: State, t: Tid): Pc {
    if t in s.pcs then s.pcs[t] else Idle
  }

  function Lookup<V>(m: map<Key, V>, key: Key): Option<V> {
    if key in m then Some(m[key]) else None
  }

  ghost predicate OuterReadFree(s: State) {
    forall t :: !At(s, t).OuterWrites()
  }

  ghost predicate OuterWriteFree(s: State) {
    forall t :: !At(s, t).OuterWrites() && !At(s, t).OuterReads()
  }

  ghost predicate InnerReadFree(s: State) {
    forall t :: !At(s, t).InnerWrites()
  }

  ghost predicate InnerWriteFree(s: State) {
    forall t :: !At(s, t).InnerWrites() && !At(s, t).InnerReads()
  }

  // ---------------------------------------------------------------------------------------
  // Atomic steps

  predicate SameCaches(s: State, s': State) {
    s'.outer == s.outer && s'.inner == s.inner && s'.next == s.next
  }

  ghost predicate OuterGetStep(s: State, pc: Pc, pc': Pc, s': State) {
    && SameCaches(s, s')
    && match pc
       case GetBegin(k) => pc' == GetReading(k) && OuterReadFree(s)
       case GetReading(k) => pc' == GetRead(k, Lookup(s.outer, k))
       case GetRead(k, hit) => pc' == if hit.Some? then GetReleased(k, hit) else GetWait(k)
       case GetWait(k) => pc' == InnerBegin(k, true) && OuterWriteFree(s)
       case GetStored(k, hit) => pc' == GetReleased(k, hit)
       case GetReleased(k, hit) => pc' == Returned(k, hit)
       case _ => false
  }

  /** The wrapper is built and stored, or its initialization fails. */
  ghost predicate WrapStep(s: State, pc: Pc, pc': Pc, s': State) {
    && pc.InnerDone? && pc.nested
    && pc'.GetStored? && pc'.key == pc.key
    && s'.inner == s.inner
    && match pc'.hit
       case None => s'.outer == s.outer && s'.next == s.next
       case Some(w) => pc.found == Some(w.tms) && w.uid == s.next
                       && s'.outer == s.outer[pc.key := w] && s'.next == s.next + 1
  }

  ghost predicate InnerGetStep(s: State, pc: Pc, pc': Pc, s': State) {
    && SameCaches(s, s')
    && match pc
       case InnerBegin(k, n) => (pc' == InnerReading(k, n) && InnerReadFree(s)) || pc' == InnerDone(k, n, None)
       case InnerReading(k, n) => pc' == InnerRead(k, n, Lookup(s.inner, k))
       case InnerRead(k, n, found) => pc' == if found.Some? then InnerDone(k, n, found) else InnerWait(k, n)
       case InnerWait(k, n) => pc' == InnerCheck(k, n) && InnerWriteFree(s)
       case InnerCheck(k, n) => pc' == if k in s.inner then InnerHeld(k, n, Some(s.inner[k])) else InnerMake(k, n)
       case InnerHeld(k, n, found) => pc' == InnerDone(k, n, found)
       case _ => false
  }

  /** A service is built and installed, or no source yields one. */
  ghost predicate MakeStep(s: State, pc: Pc, pc': Pc, s': State) {
    && pc.InnerMake?
    && pc'.InnerHeld? && pc'.key == pc.key && pc'.nested == pc.nested
    && s'.outer == s.outer
    && match pc'.found
       case None => s'.inner == s.inner && s'.next == s.next
       case Some(service) => service.uid == s.next && s'.next == s.next + 1
                             && s'.inner == Installed(s.inner, pc.key, service)
  }

  /** The inner update finds the same parameters in use, or replaces the service, or fails. */
  ghost predicate ApplyStep(digest: Digest, s: State, pc: Pc, pc': Pc, s': State) {
    && pc.UpdInner?
    && pc'.UpdApplied? && pc'.key == pc.key && pc'.params == pc.params
    && s'.outer == s.outer
    && (if pc'.ok && !InUse(digest, s.inner, pc.key, pc.params)
        then s'.inner == s.inner[pc.key := Service(s.next, pc.params)] && s'.next == s.next + 1
        else s'.inner == s.inner && s'.next == s.next)
    && (InUse(digest, s.inner, pc.key, pc.params) ==> pc'.ok)
  }

  ghost predicate EvictStep(s: State, pc: Pc, pc': Pc, s': State) {
    && pc.UpdEvict?
    && pc' == UpdUnlock(pc.key, pc.params, true)
    && s'.outer == s.outer - {pc.key} && s'.inner == s.inner && s'.next == s.next
  }

  ghost predicate OuterUpdateStep(s: State, pc: Pc, pc': Pc, s': State) {
    && SameCaches(s, s')
    && match pc
       case UpdBegin(k, p) => pc' == UpdLocked(k, p) && OuterWriteFree(s)
       case UpdLocked(k, p) => (pc' == UpdInner(k, p) && InnerWriteFree(s)) || pc' == UpdUnlock(k, p, false)
       case UpdApplied(k, p, ok) => pc' == if ok then UpdEvict(k, p) else UpdUnlock(k, p, false)
       case UpdUnlock(k, p, ok) => pc' == UpdReleased(k, p, ok)
       case UpdReleased(k, p, ok) => pc' == Updated(k, p, ok)
       case _ => false
  }

  ghost predicate StartStep(s: State, pc: Pc, pc': Pc, s': State) {
    pc.Quiet() && pc'.Starts() && SameCaches(s, s')
  }

  /** What a thread does between two of its program counters. */
  ghost predicate Steps(digest: Digest, s: State, pc: Pc, pc': Pc, s': State) {
    || StartStep(s, pc, pc', s')
    || OuterGetStep(s, pc, pc', s') || WrapStep(s, pc, pc', s')
    || InnerGetStep(s, pc, pc', s') || MakeStep(s, pc, pc', s')
    || OuterUpdateStep(s, pc, pc', s') || ApplyStep(digest, s, pc, pc', s') || EvictStep(s, pc, pc', s')
  }

  ghost predicate Next(digest: Digest, s: State, t: Tid, s': State) {
    s'.pcs == s.pcs[t := At(s', t)] && Steps(digest, s, At(s, t), At(s', t), s')
  }

  predicate Init(s: State) {
    s.outer == map[] && s.inner == map[] && s.pcs == map[]
  }

  // ---------------------------------------------------------------------------------------
  // The invariant

  /** Two threads may be where they are at the same time. */
  predicate Compatible(a: Pc, b: Pc) {
    && (a.OuterWrites() ==> !b.OuterWrites() && !b.OuterReads())
    && (a.InnerWrites() ==> !b.InnerWrites() && !b.InnerReads())
  }

  ghost predicate Exclusive(s: State) {
    forall t, u :: t != u ==> Compatible(At(s, t), At(s, u))
  }

  predicate Holds(inner: map<Key, Service>, key: Key, service: Service) {
    key in inner && inner[key] == service
  }

  /** What a thread has read and not yet handed back is still what the inner cache holds. */
  predicate ThreadOk(digest: Digest, inner: map<Key, Service>, pc: Pc) {
    match pc
    case GetRead(k, Some(w)) => Holds(inner, k, w.tms)
    case GetStored(k, Some(w)) => Holds(inner, k, w.tms)
    case InnerRead(k, _, Some(service)) => Holds(inner, k, service)
    case InnerHeld(k, _, Some(service)) => Holds(inner, k, service)
    case InnerDone(k, true, Some(service)) => Holds(inner, k, service)
    case InnerMake(k, _) => k !in inner
    case UpdApplied(k, p, true) => InUse(digest, inner, k, p)
    case UpdEvict(k, p) => InUse(digest, inner, k, p)
    case UpdUnlock(k, p, true) => InUse(digest, inner, k, p)
    case _ => true
  }

  ghost predicate ThreadsOk(digest: Digest, s: State) {
    forall t :: ThreadOk(digest, s.inner, At(s, t))
  }

  /** A thread is about to evict the wrapper of this key. */
  ghost predicate Stale(s: State, k: Key) {
    exists t :: At(s, t).LeavesStale(k)
  }

  predicate Fresh(s: State, k: Key)
    requires k in s.outer
  {
    Holds(s.inner, k, s.outer[k].tms)
  }

  ghost predicate CachesAgree(s: State) {
    forall k :: k in s.outer && !Stale(s, k) ==> Fresh(s, k)
  }

  ghost predicate Inv(digest: Digest, s: State) {
    Exclusive(s) && ThreadsOk(digest, s) && CachesAgree(s)
  }

  lemma {:induction false} NextAt(digest: Digest, s: State, t: Tid, s': State, u: Tid)
    requires Next(digest, s, t, s')
    requires u != t
    ensures At(s', u) == At(s, u)
  {
  }

  /** A step keeps apart the stepping thread and any other. */
  lemma {:induction false} StepCompatible(digest: Digest, s: State, t: Tid, s': State, u: Tid)
    requires Next(digest, s, t, s') && u != t
    requires Compatible(At(s, t), At(s, u)) && Compatible(At(s, u), At(s, t))
    ensures Compatible(At(s', t), At(s, u)) && Compatible(At(s, u), At(s', t))
  {
  }

  lemma {:induction false} ExclusiveStep(digest: Digest, s: State, t: Tid, s': State)
    requires Exclusive(s) && Next(digest, s, t, s')
    ensures Exclusive(s')
  {
    forall a, b | a != b ensures Compatible(At(s', a), At(s', b)) {
      if a == t {
        StepCompatible(digest, s, t, s', b);
        NextAt(digest, s, t, s', b);
      } else if b == t {
        StepCompatible(digest, s, t, s', a);
        NextAt(digest, s, t, s', a);
      } else {
        NextAt(digest, s, t, s', a);
        NextAt(digest, s, t, s', b);
        assert Compatible(At(s, a), At(s, b));
      }
    }
  }

  /** While a thread holds the outer read lock, no eviction is outstanding. */
  lemma {:induction false} ReaderSeesNoStale(s: State, t: Tid, k: Key)
    requires Exclusive(s) && At(s, t).OuterReads()
    ensures !Stale(s, k)
  {
    forall u ensures !At(s, u).LeavesStale(k) {
      if u != t {
        assert Compatible(At(s, u), At(s, t));
      }
    }
  }

  lemma {:induction false} SteppingThreadOk(digest: Digest, s: State, t: Tid, s': State)
    requires Inv(digest, s) && Next(digest, s, t, s')
    ensures ThreadOk(digest, s'.inner, At(s', t))
  {
    var pc := At(s, t);
    assert ThreadOk(digest, s.inner, pc);
    if pc.GetReading? {
      ReaderSeesNoStale(s, t, pc.key);
    }
  }

  lemma {:induction false} OtherThreadOk(digest: Digest, s: State, t: Tid, s': State, u: Tid)
    requires Inv(digest, s) && Next(digest, s, t, s') && u != t
    ensures ThreadOk(digest, s'.inner, At(s, u))
  {
    assert ThreadOk(digest, s.inner, At(s, u));
    assert Compatible(At(s, t), At(s, u));
  }

  lemma {:induction false} ThreadsStep(digest: Digest, s: State, t: Tid, s': State)
    requires Inv(digest, s) && Next(digest, s, t, s')
    ensures ThreadsOk(digest, s')
  {
    forall u ensures ThreadOk(digest, s'.inner, At(s', u)) {
      if u == t {
        SteppingThreadOk(digest, s, t, s');
      } else {
        OtherThreadOk(digest, s, t, s', u);
        NextAt(digest, s, t, s', u);
      }
    }
  }

  lemma {:induction false} AgreeStep(digest: Digest, s: State, t: Tid, s': State, k: Key)
    requires Inv(digest, s) && Next(digest, s, t, s')
    requires k in s'.outer && !Stale(s', k)
    ensures Fresh(s', k)
  {
    var pc := At(s, t);
    assert ThreadOk(digest, s.inner, pc);
    assert !At(s', t).LeavesStale(k);
    forall u | u != t ensures !At(s, u).LeavesStale(k) {
      NextAt(digest, s, t, s', u);
      assert !At(s', u).LeavesStale(k);
    }
  }

  lemma {:induction false} InvStep(digest: Digest, s: State, t: Tid, s': State)
    requires Inv(digest, s) && Next(digest, s, t, s')
    ensures Inv(digest, s')
  {
    ExclusiveStep(digest, s, t, s');
    ThreadsStep(digest, s, t, s');
    forall k | k in s'.outer && !Stale(s', k) ensures Fresh(s', k) {
      AgreeStep(digest, s, t, s', k);
    }
  }

  // ---------------------------------------------------------------------------------------
  // Runs

  /** Thread `who[i]` takes the i-th step. */
  ghost predicate Run(digest: Digest, run: seq<State>, who: seq<Tid>) {
    && |run| == |who| + 1
    && Init(run[0])
    && forall i :: 0 <= i < |who| ==> Next(digest, run[i], who[i], run[i + 1])
  }

  lemma {:induction false} RunInv(digest: Digest, run: seq<State>, who: seq<Tid>, i: nat)
    requires Run(digest, run, who) && i < |run|
    ensures Inv(digest, run[i])
  {
    if i > 0 {
      RunInv(digest, run, who, i - 1);
      InvStep(digest, run[i - 1], who[i - 1], run[i]);
    }
  }

  /** Whenever the outer write lock is free, every wrapper wraps the inner service of its key. */
  lemma {:induction false} CachesAgreeWhenFree(digest: Digest, run: seq<State>, who: seq<Tid>, i: nat, k: Key)
    requires Run(digest, run, who) && i < |run|
    requires OuterReadFree(run[i]) && k in run[i].outer
    ensures k in run[i].inner && run[i].outer[k].tms == run[i].inner[k]
  {
    RunInv(digest, run, who, i);
    forall t ensures !At(run[i], t).LeavesStale(k) {
      assert !At(run[i], t).OuterWrites();
    }
  }

  /** Thread `t` runs one outer get of key `k` from step `i` to step `j`. */
  ghost predicate IsGet(run: seq<State>, t: Tid, k: Key, i: nat, j: nat, w: Wrapper) {
    && i < j < |run|
    && At(run[i], t) == GetBegin(k)
    && At(run[j], t) == Returned(k, Some(w))
    && forall m :: i < m < j ==> !At(run[m], t).Quiet()
  }

  lemma {:induction false} OthersStay(digest: Digest, run: seq<State>, who: seq<Tid>, i: nat, t: Tid)
    requires Run(digest, run, who) && i < |who| && who[i] != t
    ensures At(run[i + 1], t) == At(run[i], t)
  {
    NextAt(digest, run[i], who[i], run[i + 1], t);
  }

  /** A thread that is about to return released its lock in a step of its own. */
  lemma {:induction false} ReleaseStep(digest: Digest, run: seq<State>, who: seq<Tid>, t: Tid, pc: Pc, j: nat)
    returns (m: nat)
    requires Run(digest, run, who) && j < |run|
    requires At(run[j], t) == pc && (pc.GetReleased? || pc.UpdReleased?)
    ensures m < j && who[m] == t && At(run[m], t) != pc
    ensures forall l :: m < l <= j ==> At(run[l], t) == pc
  {
    m := j - 1;
    if At(run[m], t) == pc {
      m := ReleaseStep(digest, run, who, t, pc, j - 1);
    } else if who[m] != t {
      OthersStay(digest, run, who, m, t);
    }
  }

  /** A get hands back a wrapper of the service the inner cache holds when the get releases its lock. */
  lemma {:induction false} GetReturnsCurrent(digest: Digest, run: seq<State>, who: seq<Tid>, t: Tid, k: Key, i: nat,
                                             j: nat, w: Wrapper)
    returns (m: nat)
    requires Run(digest, run, who) && IsGet(run, t, k, i, j, w)
    ensures i < m < j && who[m] == t && At(run[m + 1], t) == GetReleased(k, Some(w))
    ensures Holds(run[m].inner, k, w.tms)
  {
    if who[j - 1] != t {
      OthersStay(digest, run, who, j - 1, t);
    }
    assert Next(digest, run[j - 1], who[j - 1], run[j]);
    m := ReleaseStep(digest, run, who, t, GetReleased(k, Some(w)), j - 1);
    assert At(run[m + 1], t) == GetReleased(k, Some(w));
    RunInv(digest, run, who, m);
    assert ThreadOk(digest, run[m].inner, At(run[m], t));
    assert Next(digest, run[m], who[m], run[m + 1]);
  }

  /** The service of a key, once present, changes only while an update of that key is in flight. */
  lemma {:induction false} InnerStable(digest: Digest, run: seq<State>, who: seq<Tid>, k: Key, u: nat, m: nat)
    requires Run(digest, run, who) && u <= m < |run|
    requires k in run[u].inner
    requires forall i, t :: u <= i < m ==> !At(run[i], t).Updates(k)
    ensures Holds(run[m].inner, k, run[u].inner[k])
  {
    if u < m {
      InnerStable(digest, run, who, k, u, m - 1);
      assert Next(digest, run[m - 1], who[m - 1], run[m]);
      assert !At(run[m - 1], who[m - 1]).Updates(k);
    }
  }

  /** When a successful update releases its lock, the inner service has the update's parameters. */
  lemma {:induction false} UpdateTakesEffect(digest: Digest, run: seq<State>, who: seq<Tid>, u: nat, k: Key, p: Bytes)
    requires Run(digest, run, who) && u < |who|
    requires At(run[u], who[u]) == UpdUnlock(k, p, true)
    ensures At(run[u + 1], who[u]) == UpdReleased(k, p, true)
    ensures InUse(digest, run[u + 1].inner, k, p)
  {
    RunInv(digest, run, who, u);
    assert Next(digest, run[u], who[u], run[u + 1]);
    assert ThreadOk(digest, run[u].inner, At(run[u], who[u]));
  }

  /** A successful update that has returned released its lock before, with the parameters in place. */
  lemma {:induction false} UpdateReleased(digest: Digest, run: seq<State>, who: seq<Tid>, r: nat, k: Key, p: Bytes)
    returns (u: nat)
    requires Run(digest, run, who) && 0 < r < |run|
    requires At(run[r], who[r - 1]) == Updated(k, p, true)
    ensures u < r && who[u] == who[r - 1] && At(run[u], who[u]) == UpdUnlock(k, p, true)
  {
    assert Next(digest, run[r - 1], who[r - 1], run[r]);
    u := ReleaseStep(digest, run, who, who[r - 1], UpdReleased(k, p, true), r - 1);
    assert At(run[u + 1], who[u]) == UpdReleased(k, p, true);
    assert Next(digest, run[u], who[u], run[u + 1]);
  }

  /**
   Every get that begins after a successful update of its key released its lock, in particular after
   the update returned, and ends before the next update of that key is called, yields the service
   installed then, with that update's parameters.
   */
  lemma {:induction false} GetAfterUpdate(digest: Digest, run: seq<State>, who: seq<Tid>, u: nat, k: Key, p: Bytes,
                                          t: Tid, i: nat, j: nat, w: Wrapper)
    requires Run(digest, run, who) && u < i
    requires IsGet(run, t, k, i, j, w)
    requires At(run[u], who[u]) == UpdUnlock(k, p, true)
    requires forall m, t' :: u < m < j ==> !At(run[m], t').Updates(k)
    ensures Holds(run[u + 1].inner, k, w.tms) && digest(w.tms.params) == digest(p)
  {
    UpdateTakesEffect(digest, run, who, u, k, p);
    var m := GetReturnsCurrent(digest, run, who, t, k, i, j, w);
    InnerStable(digest, run, who, k, u + 1, m);
  }
}
