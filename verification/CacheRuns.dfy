/**
 Runs of the two caches that do happen: two gets that both miss build two wrappers of one service,
 a get that hits hands back what is stored, an update replaces the parameters (token/provider.go,
 token/core/tms.go).
 */
module CacheRuns {
  import opened Prelude
  import opened Tms
  import opened CacheProtocol

  // ---------------------------------------------------------------------------------------
  // Pieces of a run

  function Move(s: State, t: Tid, pc: Pc): State {
    s.(pcs := s.pcs[t := pc])
  }

  lemma {:induction false} Extend(digest: Digest, run: seq<State>, who: seq<Tid>, t: Tid, s: State)
    returns (run': seq<State>, who': seq<Tid>)
    requires Run(digest, run, who) && Next(digest, run[|who|], t, s)
    ensures Run(digest, run', who') && run' == run + [s] && who' == who + [t]
  {
    run', who' := run + [s], who + [t];
  }

  /** One more step of a thread, from one program counter and state of the caches to the next. */
  lemma {:induction false} Advance(digest: Digest, run: seq<State>, who: seq<Tid>, s: State, t: Tid, pc: Pc, s1: State,
                                   pc': Pc)
    returns (run': seq<State>, who': seq<Tid>)
    requires Run(digest, run, who) && run[|who|] == Move(s, t, pc) && s1.pcs == s.pcs
    requires Steps(digest, Move(s, t, pc), pc, pc', Move(s1, t, pc'))
    ensures Run(digest, run', who') && run <= run' && run'[|who'|] == Move(s1, t, pc')
  {
    assert Move(s1, t, pc').pcs == Move(s, t, pc).pcs[t := pc'];
    run', who' := Extend(digest, run, who, t, Move(s1, t, pc'));
  }

  /** No thread holds a lock. */
  ghost predicate Parked(s: State) {
    forall t :: At(s, t).Idle? || At(s, t).GetWait? || At(s, t).Returned? || At(s, t).Updated?
  }

  lemma {:induction false} MovedThread(s: State, t: Tid, pc: Pc)
    ensures At(Move(s, t, pc), t) == pc
    ensures forall u :: u != t ==> At(Move(s, t, pc), u) == At(s, u)
  {
  }

  /** A get looks its key up in the outer cache. */
  lemma {:induction false} ReadOuter(digest: Digest, run: seq<State>, who: seq<Tid>, t: Tid, k: Key)
    returns (run': seq<State>, who': seq<Tid>)
    requires Run(digest, run, who) && Parked(run[|who|])
    requires At(run[|who|], t).Quiet()
    ensures Run(digest, run', who') && run <= run'
    ensures run'[|who'|] == Move(run[|who|], t, GetRead(k, Lookup(run[|who|].outer, k)))
  {
    var s := run[|who|];
    MovedThread(s, t, GetBegin(k));
    run', who' := Extend(digest, run, who, t, Move(s, t, GetBegin(k)));
    run', who' := Advance(digest, run', who', s, t, GetBegin(k), s, GetReading(k));
    run', who' := Advance(digest, run', who', s, t, GetReading(k), s, GetRead(k, Lookup(s.outer, k)));
  }

  /** A thread that finds nothing in the outer cache gets as far as waiting for the write lock. */
  lemma {:induction false} MissOuter(digest: Digest, run: seq<State>, who: seq<Tid>, t: Tid, k: Key)
    returns (run': seq<State>, who': seq<Tid>)
    requires Run(digest, run, who) && Parked(run[|who|])
    requires At(run[|who|], t).Quiet() && k !in run[|who|].outer
    ensures Run(digest, run', who') && run <= run' && run'[|who'|] == Move(run[|who|], t, GetWait(k))
    ensures Parked(run'[|who'|])
  {
    var s := run[|who|];
    run', who' := ReadOuter(digest, run, who, t, k);
    run', who' := Advance(digest, run', who', s, t, GetRead(k, None), s, GetWait(k));
    MovedThread(s, t, GetWait(k));
  }

  /** A waiting thread takes both locks and reaches the check of the inner cache. */
  lemma {:induction false} EnterInner(digest: Digest, run: seq<State>, who: seq<Tid>, t: Tid, k: Key)
    returns (run': seq<State>, who': seq<Tid>)
    requires Run(digest, run, who) && Parked(run[|who|])
    requires At(run[|who|], t) == GetWait(k)
    ensures Run(digest, run', who') && run <= run'
    ensures run'[|who'|] == Move(run[|who|], t, InnerRead(k, true, Lookup(run[|who|].inner, k)))
  {
    var s := run[|who|];
    run', who' := Extend(digest, run, who, t, Move(s, t, InnerBegin(k, true)));
    MovedThread(s, t, InnerBegin(k, true));
    run', who' := Advance(digest, run', who', s, t, InnerBegin(k, true), s, InnerReading(k, true));
    run', who' := Advance(digest, run', who', s, t, InnerReading(k, true), s, InnerRead(k, true, Lookup(s.inner, k)));
  }

  /** ... finds it empty, re-checks it under the inner write lock ... */
  lemma {:induction false} RecheckInner(digest: Digest, run: seq<State>, who: seq<Tid>, s: State, t: Tid, k: Key)
    returns (run': seq<State>, who': seq<Tid>)
    requires Run(digest, run, who) && Parked(s) && k !in s.inner
    requires run[|who|] == Move(s, t, InnerRead(k, true, None))
    ensures Run(digest, run', who') && run <= run' && run'[|who'|] == Move(s, t, InnerMake(k, true))
  {
    run', who' := Advance(digest, run, who, s, t, InnerRead(k, true, None), s, InnerWait(k, true));
    MovedThread(s, t, InnerWait(k, true));
    run', who' := Advance(digest, run', who', s, t, InnerWait(k, true), s, InnerCheck(k, true));
    run', who' := Advance(digest, run', who', s, t, InnerCheck(k, true), s, InnerMake(k, true));
  }

  /** ... and builds the missing service. */
  lemma {:induction false} MakeInner(digest: Digest, run: seq<State>, who: seq<Tid>, s: State, t: Tid, k: Key, p: Bytes)
    returns (run': seq<State>, who': seq<Tid>)
    requires Run(digest, run, who) && k !in s.inner
    requires run[|who|] == Move(s, t, InnerMake(k, true))
    ensures Run(digest, run', who') && run <= run'
    ensures var service := Service(s.next, p);
            run'[|who'|] == Move(s.(inner := s.inner[k := service], next := s.next + 1), t,
                                 InnerDone(k, true, Some(service)))
  {
    var service := Service(s.next, p);
    var s1 := s.(inner := s.inner[k := service], next := s.next + 1);
    run', who' := Extend(digest, run, who, t, Move(s1, t, InnerHeld(k, true, Some(service))));
    run', who' := Extend(digest, run', who', t, Move(s1, t, InnerDone(k, true, Some(service))));
  }

  lemma {:induction false} WrapAndReturn(digest: Digest, run: seq<State>, who: seq<Tid>, s: State, t: Tid, k: Key,
                                         service: Service)
    returns (run': seq<State>, who': seq<Tid>)
    requires Run(digest, run, who) && Parked(s)
    requires run[|who|] == Move(s, t, InnerDone(k, true, Some(service)))
    ensures Run(digest, run', who') && run <= run'
    ensures var w := Wrapper(s.next, service);
            run'[|who'|] == Move(s.(outer := s.outer[k := w], next := s.next + 1), t, Returned(k, Some(w)))
    ensures Parked(run'[|who'|])
  {
    var w := Wrapper(s.next, service);
    var s1 := s.(outer := s.outer[k := w], next := s.next + 1);
    run', who' := Extend(digest, run, who, t, Move(s1, t, GetStored(k, Some(w))));
    assert forall u :: At(s1, u) == At(s, u);
    run', who' := ReleaseAndReturn(digest, run', who', s1, t, k, w);
  }

  lemma {:induction false} ReleaseAndReturn(digest: Digest, run: seq<State>, who: seq<Tid>, s: State, t: Tid, k: Key,
                                            w: Wrapper)
    returns (run': seq<State>, who': seq<Tid>)
    requires Run(digest, run, who) && Parked(s)
    requires run[|who|] == Move(s, t, GetStored(k, Some(w)))
    ensures Run(digest, run', who') && run <= run' && run'[|who'|] == Move(s, t, Returned(k, Some(w)))
    ensures Parked(run'[|who'|])
  {
    run', who' := Extend(digest, run, who, t, Move(s, t, GetReleased(k, Some(w))));
    run', who' := Extend(digest, run', who', t, Move(s, t, Returned(k, Some(w))));
    MovedThread(s, t, Returned(k, Some(w)));
  }

  // ---------------------------------------------------------------------------------------
  // The missing re-check is visible: two threads build two wrappers of one service

  /** Two threads miss, and the first of them completes its get. */
  lemma {:induction false} FirstWrapper(digest: Digest, k: Key, p: Bytes) returns (run: seq<State>, who: seq<Tid>)
    ensures Run(digest, run, who) && Parked(run[|who|])
    ensures var s := run[|who|];
            && Lookup(s.inner, k) == Some(Service(0, p)) && s.next == 2
            && At(s, 0) == Returned(k, Some(Wrapper(1, Service(0, p)))) && At(s, 1) == GetWait(k)
  {
    run, who := [State(map[], map[], map[], 0)], [];
    run, who := MissOuter(digest, run, who, 0, k);
    run, who := MissOuter(digest, run, who, 1, k);
    var s := run[|who|];
    run, who := EnterInner(digest, run, who, 0, k);
    run, who := RecheckInner(digest, run, who, s, 0, k);
    run, who := MakeInner(digest, run, who, s, 0, k, p);
    s := s.(inner := s.inner[k := Service(0, p)], next := 1);
    run, who := WrapAndReturn(digest, run, who, s, 0, k, Service(0, p));
  }

  /** Two gets that both miss hand back different wrappers, of one and the same service. */
  lemma {:induction false} TwoWrappers(digest: Digest, k: Key, p: Bytes)
    returns (run: seq<State>, who: seq<Tid>, w: Wrapper, w': Wrapper)
    ensures Run(digest, run, who)
    ensures At(run[|who|], 0) == Returned(k, Some(w)) && At(run[|who|], 1) == Returned(k, Some(w'))
    ensures w != w' && w.tms == w'.tms
  {
    var service := Service(0, p);
    w, w' := Wrapper(1, service), Wrapper(2, service);
    run, who := FirstWrapper(digest, k, p);
    var s := run[|who|];
    run, who := EnterInner(digest, run, who, 1, k);
    run, who := Extend(digest, run, who, 1, Move(s, 1, InnerDone(k, true, Some(service))));
    run, who := WrapAndReturn(digest, run, who, s, 1, k, service);
  }

  /** A get of a cached key hands back the very wrapper that is stored. */
  lemma {:induction false} CachedGet(digest: Digest, run: seq<State>, who: seq<Tid>, t: Tid, k: Key)
    returns (run': seq<State>, who': seq<Tid>)
    requires Run(digest, run, who) && Parked(run[|who|])
    requires At(run[|who|], t).Quiet() && k in run[|who|].outer
    ensures Run(digest, run', who') && run <= run'
    ensures run'[|who'|] == Move(run[|who|], t, Returned(k, Some(run[|who|].outer[k])))
  {
    var s := run[|who|];
    var hit := Some(s.outer[k]);
    run', who' := ReadOuter(digest, run, who, t, k);
    run', who' := Advance(digest, run', who', s, t, GetRead(k, hit), s, GetReleased(k, hit));
    run', who' := Advance(digest, run', who', s, t, GetReleased(k, hit), s, Returned(k, hit));
  }

  /** A direct get on the inner provider hands back the service that is cached. */
  lemma {:induction false} DirectGet(digest: Digest, run: seq<State>, who: seq<Tid>, t: Tid, k: Key)
    returns (run': seq<State>, who': seq<Tid>)
    requires Run(digest, run, who) && Parked(run[|who|])
    requires At(run[|who|], t).Quiet() && k in run[|who|].inner
    ensures Run(digest, run', who') && run <= run'
    ensures run'[|who'|] == Move(run[|who|], t, InnerDone(k, false, Some(run[|who|].inner[k])))
  {
    var s := run[|who|];
    var found := Some(s.inner[k]);
    assert InnerReadFree(Move(s, t, InnerBegin(k, false))) by {
      MovedThread(s, t, InnerBegin(k, false));
    }
    run', who' := Extend(digest, run, who, t, Move(s, t, InnerBegin(k, false)));
    run', who' := Advance(digest, run', who', s, t, InnerBegin(k, false), s, InnerReading(k, false));
    run', who' := Advance(digest, run', who', s, t, InnerReading(k, false), s, InnerRead(k, false, found));
    run', who' := Advance(digest, run', who', s, t, InnerRead(k, false, found), s, InnerDone(k, false, found));
  }

  /** Where an operation that is not specified, finds no usable source or cannot be set up goes next. */
  function Failure(pc: Pc): Option<Pc> {
    match pc
    case InnerBegin(k, n) => Some(InnerDone(k, n, None))
    case InnerMake(k, n) => Some(InnerHeld(k, n, None))
    case InnerDone(k, true, _) => Some(GetStored(k, None))
    case UpdLocked(k, p) => Some(UpdUnlock(k, p, false))
    case _ => None
  }

  /** Every operation that can fail may do so, and then leaves both caches alone. */
  lemma {:induction false} MayFail(digest: Digest, s: State, t: Tid)
    requires Failure(At(s, t)).Some?
    ensures Next(digest, s, t, Move(s, t, Failure(At(s, t)).value))
    ensures SameCaches(s, Move(s, t, Failure(At(s, t)).value))
  {
    MovedThread(s, t, Failure(At(s, t)).value);
  }

  // ---------------------------------------------------------------------------------------
  // Updates replace parameters

  /** The update of a key in a state of the caches. */
  function Replaced(s: State, k: Key, p: Bytes): State {
    s.(inner := s.inner[k := Service(s.next, p)], next := s.next + 1)
  }

  /** One step of the inner update ends with exactly these parameters in place. */
  ghost predicate Installs(digest: Digest, s: State, t: Tid, k: Key, p: Bytes, s': State) {
    && Next(digest, s, t, s') && At(s', t) == UpdApplied(k, p, true)
    && k in s'.inner && s'.inner[k].params == p
  }

  /**
   An update about to touch the inner cache can install its parameters if and only if no other
   parameters with the same digest are in use.
   */
  lemma {:induction false} UpdateCanInstall(digest: Digest, s: State, t: Tid, k: Key, p: Bytes)
    requires At(s, t) == UpdInner(k, p)
    ensures (exists s' :: Installs(digest, s, t, k, p, s'))
            <==> !InUse(digest, s.inner, k, p) || s.inner[k].params == p
  {
    var s' := Move(if InUse(digest, s.inner, k, p) then s else Replaced(s, k, p), t, UpdApplied(k, p, true));
    assert Next(digest, s, t, s');
    if !InUse(digest, s.inner, k, p) || s.inner[k].params == p {
      assert Installs(digest, s, t, k, p, s');
    }
  }

  /** An update about to touch the inner cache can always succeed, and can fail unless its parameters are in use. */
  lemma {:induction false} UpdateOutcomes(digest: Digest, s: State, t: Tid, k: Key, p: Bytes, ok: bool)
    requires At(s, t) == UpdInner(k, p)
    ensures (exists s' :: Next(digest, s, t, s') && At(s', t) == UpdApplied(k, p, ok))
            <==> ok || !InUse(digest, s.inner, k, p)
  {
    var s' := Move(if ok && !InUse(digest, s.inner, k, p) then Replaced(s, k, p) else s, t, UpdApplied(k, p, ok));
    if ok || !InUse(digest, s.inner, k, p) {
      assert Next(digest, s, t, s');
    }
  }

  /** An update takes both locks ... */
  lemma {:induction false} LockBoth(digest: Digest, run: seq<State>, who: seq<Tid>, t: Tid, k: Key, p: Bytes)
    returns (run': seq<State>, who': seq<Tid>)
    requires Run(digest, run, who) && Parked(run[|who|]) && At(run[|who|], t).Quiet()
    ensures Run(digest, run', who') && run <= run' && run'[|who'|] == Move(run[|who|], t, UpdInner(k, p))
  {
    var s := run[|who|];
    assert OuterWriteFree(Move(s, t, UpdBegin(k, p))) by {
      MovedThread(s, t, UpdBegin(k, p));
    }
    run', who' := Extend(digest, run, who, t, Move(s, t, UpdBegin(k, p)));
    run', who' := Advance(digest, run', who', s, t, UpdBegin(k, p), s, UpdLocked(k, p));
    assert InnerWriteFree(Move(s, t, UpdLocked(k, p))) by {
      MovedThread(s, t, UpdLocked(k, p));
    }
    run', who' := Advance(digest, run', who', s, t, UpdLocked(k, p), s, UpdInner(k, p));
  }

  /** ... replaces the service ... */
  lemma {:induction false} ReplaceInner(digest: Digest, run: seq<State>, who: seq<Tid>, t: Tid, k: Key, p: Bytes)
    returns (run': seq<State>, who': seq<Tid>)
    requires Run(digest, run, who) && Parked(run[|who|]) && At(run[|who|], t).Quiet()
    requires !InUse(digest, run[|who|].inner, k, p)
    ensures Run(digest, run', who') && run <= run'
    ensures run'[|who'|] == Move(Replaced(run[|who|], k, p), t, UpdApplied(k, p, true))
  {
    var s := run[|who|];
    run', who' := LockBoth(digest, run, who, t, k, p);
    run', who' := Advance(digest, run', who', s, t, UpdInner(k, p), Replaced(s, k, p), UpdApplied(k, p, true));
  }

  /** ... evicts the wrapper and returns. */
  lemma {:induction false} EvictAndReturn(digest: Digest, run: seq<State>, who: seq<Tid>, s: State, t: Tid, k: Key,
                                          p: Bytes)
    returns (run': seq<State>, who': seq<Tid>)
    requires Run(digest, run, who) && Parked(s)
    requires run[|who|] == Move(s, t, UpdApplied(k, p, true))
    ensures Run(digest, run', who') && run <= run'
    ensures run'[|who'|] == Move(s.(outer := s.outer - {k}), t, Updated(k, p, true)) && Parked(run'[|who'|])
  {
    var s1 := s.(outer := s.outer - {k});
    run', who' := Advance(digest, run, who, s, t, UpdApplied(k, p, true), s, UpdEvict(k, p));
    run', who' := Advance(digest, run', who', s, t, UpdEvict(k, p), s1, UpdUnlock(k, p, true));
    run', who' := UnlockAndReturn(digest, run', who', s1, t, k, p);
    MovedThread(s1, t, Updated(k, p, true));
    assert forall u :: At(s1, u) == At(s, u);
  }

  lemma {:induction false} UnlockAndReturn(digest: Digest, run: seq<State>, who: seq<Tid>, s: State, t: Tid, k: Key,
                                           p: Bytes)
    returns (run': seq<State>, who': seq<Tid>)
    requires Run(digest, run, who) && run[|who|] == Move(s, t, UpdUnlock(k, p, true))
    ensures Run(digest, run', who') && run <= run' && run'[|who'|] == Move(s, t, Updated(k, p, true))
  {
    run', who' := Advance(digest, run, who, s, t, UpdUnlock(k, p, true), s, UpdReleased(k, p, true));
    run', who' := Advance(digest, run', who', s, t, UpdReleased(k, p, true), s, Updated(k, p, true));
  }

  /** One thread gets a key that is in neither cache. */
  lemma {:induction false} FirstGet(digest: Digest, k: Key, p: Bytes) returns (run: seq<State>, who: seq<Tid>)
    ensures Run(digest, run, who) && Parked(run[|who|])
    ensures var w := Wrapper(1, Service(0, p));
            run[|who|] == Move(State(map[k := w], map[k := w.tms], map[], 2), 0, Returned(k, Some(w)))
  {
    var s := State(map[], map[], map[], 0);
    run, who := [s], [];
    run, who := MissOuter(digest, run, who, 0, k);
    run, who := EnterInner(digest, run, who, 0, k);
    s := Move(s, 0, GetWait(k));
    run, who := RecheckInner(digest, run, who, s, 0, k);
    run, who := MakeInner(digest, run, who, s, 0, k, p);
    s := s.(inner := s.inner[k := Service(0, p)], next := 1);
    run, who := WrapAndReturn(digest, run, who, s, 0, k, Service(0, p));
  }

  /** A thread that has not started gets a key that only the inner cache holds. */
  lemma {:induction false} GetInner(digest: Digest, run: seq<State>, who: seq<Tid>, t: Tid, k: Key)
    returns (run': seq<State>, who': seq<Tid>, w: Wrapper)
    requires Run(digest, run, who) && Parked(run[|who|])
    requires At(run[|who|], t) == Idle && k !in run[|who|].outer && k in run[|who|].inner
    ensures Run(digest, run', who') && run <= run'
    ensures At(run'[|who'|], t) == Returned(k, Some(w)) && w.tms == run[|who|].inner[k]
  {
    var service := run[|who|].inner[k];
    run', who' := MissOuter(digest, run, who, t, k);
    var s := run'[|who'|];
    w := Wrapper(s.next, service);
    run', who' := EnterInner(digest, run', who', t, k);
    run', who' := Extend(digest, run', who', t, Move(s, t, InnerDone(k, true, Some(service))));
    run', who' := WrapAndReturn(digest, run', who', s, t, k, service);
  }

  /**
   For any two parameters with different digests there is a run in which a key is cached with the
   first, an update to the second succeeds, and a get called after it returned sees the second.
   */
  lemma {:induction false} UpdateReplaces(digest: Digest, k: Key, p: Bytes, p': Bytes)
    returns (run: seq<State>, who: seq<Tid>, i: nat, j: nat, w: Wrapper, w': Wrapper)
    requires digest(p) != digest(p')
    ensures Run(digest, run, who) && i < j < |who|
    ensures At(run[i], 0) == Returned(k, Some(w)) && w.tms.params == p && Holds(run[i].inner, k, w.tms)
    ensures At(run[j], 1) == Updated(k, p', true) && At(run[j], 2) == Idle
    ensures At(run[|who|], 2) == Returned(k, Some(w')) && w'.tms.params == p'
  {
    run, who := FirstGet(digest, k, p);
    i, w := |who|, Wrapper(1, Service(0, p));
    var s := run[i];
    run, who := ReplaceInner(digest, run, who, 1, k, p');
    assert forall t :: At(Replaced(s, k, p'), t) == At(s, t);
    run, who := EvictAndReturn(digest, run, who, Replaced(s, k, p'), 1, k, p');
    j := |who|;
    run, who, w' := GetInner(digest, run, who, 2, k);
  }
}
