/** Who watches whom: two indexes kept as inverses of each other, and the notices a batch of deaths sends out. */
module WatchRegistries {
  import opened ActorSlots
  import opened Options

  type Address = nat

  datatype ExitReason = ExitCompleted | ExitPanicked

  datatype Exited = Exited(actor: Address, reason: ExitReason, value: Option<nat>)

  datatype Notice = Notice(watcher: Address, exited: Exited)

  datatype Death = Death(actor: Address, reason: StopReason, value: Option<nat>)

  function ToExit(reason: StopReason): (r: ExitReason) {
    match reason
    case Normal => ExitCompleted
    case Completed => ExitCompleted
    case Panicked => ExitPanicked
  }

  function NoticeOf(d: Death, watcher: Address): (n: Notice) {
    Notice(watcher, Exited(d.actor, ToExit(d.reason), d.value))
  }

  /** The notice names the actor and its value, and reads panicked exactly if the actor was removed as panicked. */
  predicate Tells(n: Notice, d: Death) {
    && n.exited.actor == d.actor && n.exited.value == d.value
    && (n.exited.reason.ExitPanicked? <==> d.reason.Panicked?)
  }

  /** What a removed actor leaves to be told. */
  function DeathOf(a: Address, slot: Slot): (d: Death) {
    Death(a, ReasonFor(slot), slot.exitValue)
  }

  /** A watcher reads of an actor's panic exactly if the actor was poisoned, with the value the actor left. */
  lemma PoisonReadsAsPanic(a: Address, slot: Slot, w: Address)
    ensures var n := NoticeOf(DeathOf(a, slot), w);
            && n.watcher == w && Tells(n, DeathOf(a, slot))
            && n.exited == Exited(a, if slot.poisoned then ExitPanicked else ExitCompleted, slot.exitValue)
  {
  }

  type Index = map<Address, set<Address>>

  /** `watchers` by target, `watching` by watcher. */
  datatype Registry = Registry(watchers: Index, watching: Index)

  function Empty(): (r: Registry) {
    Registry(map[], map[])
  }

  predicate Has(index: Index, key: Address, a: Address) {
    key in index && a in index[key]
  }

  function Entry(index: Index, key: Address): (s: set<Address>) {
    if key in index then index[key] else {}
  }

  // ─── operations ────────────────────────────────────────────────────────────

  function Watch(r: Registry, watcher: Address, target: Address): (r': Registry) {
    Registry(r.watchers[target := Entry(r.watchers, target) + {watcher}],
             r.watching[watcher := Entry(r.watching, watcher) + {target}])
  }

  /** Takes one address out of the entries of some keys. */
  function Forget(index: Index, keys: set<Address>, a: Address): (index': Index)
    ensures index'.Keys == index.Keys
  {
    map k | k in index :: if k in keys then index[k] - {a} else index[k]
  }

  /** The same, dropping the entries that become empty. */
  function ForgetAndPrune(index: Index, keys: set<Address>, a: Address): (index': Index) {
    map k | k in index && !(k in keys && index[k] <= {a}) :: if k in keys then index[k] - {a} else index[k]
  }

  function NotifyDeath(r: Registry, target: Address): (r': Registry) {
    Registry(r.watchers - {target}, Forget(r.watching, Entry(r.watchers, target), target))
  }

  function NoticeSet(d: Death, watchers: set<Address>): (ns: set<Notice>) {
    set w | w in watchers :: NoticeOf(d, w)
  }

  function Notices(r: Registry, d: Death): (ns: multiset<Notice>) {
    multiset(NoticeSet(d, Entry(r.watchers, d.actor)))
  }

  function CleanupWatcher(r: Registry, watcher: Address): (r': Registry) {
    Registry(ForgetAndPrune(r.watchers, Entry(r.watching, watcher), watcher), r.watching - {watcher})
  }

  /** All deaths of a batch are announced, in order, before any of the dead is cleaned up. */
  function NotifyAll(r: Registry, dead: seq<Death>, n: nat): (x: (Registry, multiset<Notice>))
    requires n <= |dead|
  {
    if n == 0 then (r, multiset{})
    else
      var (r1, ns) := NotifyAll(r, dead, n - 1);
      (NotifyDeath(r1, dead[n - 1].actor), ns + Notices(r1, dead[n - 1]))
  }

  function CleanupAll(r: Registry, dead: seq<Death>, n: nat): (r': Registry)
    requires n <= |dead|
  {
    if n == 0 then r else CleanupWatcher(CleanupAll(r, dead, n - 1), dead[n - 1].actor)
  }

  function Batch(r: Registry, dead: seq<Death>): (x: (Registry, multiset<Notice>)) {
    var (r1, ns) := NotifyAll(r, dead, |dead|);
    (CleanupAll(r1, dead, |dead|), ns)
  }

  // ─── the indexes as a relation ─────────────────────────────────────────────

  predicate Agree(r: Registry, w: Address, t: Address) {
    Has(r.watchers, t, w) <==> Has(r.watching, w, t)
  }

  /** The two indexes are inverses of each other. */
  ghost predicate Inverse(r: Registry) {
    forall w, t :: Agree(r, w, t)
  }

  predicate Watches(r: Registry, w: Address, t: Address) {
    Has(r.watchers, t, w)
  }

  lemma WatchMeans(r: Registry, watcher: Address, target: Address)
    requires Inverse(r)
    ensures Inverse(Watch(r, watcher, target))
    ensures forall w, t :: Watches(Watch(r, watcher, target), w, t) <==>
              Watches(r, w, t) || (w == watcher && t == target)
  {
    var r' := Watch(r, watcher, target);
    forall w, t ensures Agree(r', w, t) && (Watches(r', w, t) <==> Watches(r, w, t) || (w == watcher && t == target)) {
      assert Agree(r, w, t);
    }
  }

  lemma NotifyMeansAt(r: Registry, target: Address, w: Address, t: Address)
    requires Agree(r, w, t)
    ensures Agree(NotifyDeath(r, target), w, t)
    ensures Watches(NotifyDeath(r, target), w, t) <==> Watches(r, w, t) && t != target
  {
  }

  lemma NotifyMeans(r: Registry, target: Address)
    requires Inverse(r)
    ensures Inverse(NotifyDeath(r, target)) && target !in NotifyDeath(r, target).watchers
    ensures forall w, t :: Watches(NotifyDeath(r, target), w, t) <==> Watches(r, w, t) && t != target
  {
    forall w, t ensures Agree(NotifyDeath(r, target), w, t)
                        && (Watches(NotifyDeath(r, target), w, t) <==> Watches(r, w, t) && t != target) {
      assert Agree(r, w, t);
      NotifyMeansAt(r, target, w, t);
    }
  }

  lemma CleanupMeansAt(r: Registry, watcher: Address, w: Address, t: Address)
    requires Agree(r, w, t) && Agree(r, watcher, t)
    ensures Agree(CleanupWatcher(r, watcher), w, t)
    ensures Watches(CleanupWatcher(r, watcher), w, t) <==> Watches(r, w, t) && w != watcher
  {
  }

  lemma CleanupMeans(r: Registry, watcher: Address)
    requires Inverse(r)
    ensures Inverse(CleanupWatcher(r, watcher)) && watcher !in CleanupWatcher(r, watcher).watching
    ensures forall w, t :: Watches(CleanupWatcher(r, watcher), w, t) <==> Watches(r, w, t) && w != watcher
  {
    forall w, t ensures Agree(CleanupWatcher(r, watcher), w, t)
                        && (Watches(CleanupWatcher(r, watcher), w, t) <==> Watches(r, w, t) && w != watcher) {
      assert Agree(r, w, t) && Agree(r, watcher, t);
      CleanupMeansAt(r, watcher, w, t);
    }
  }

  // ─── a batch of deaths ─────────────────────────────────────────────────────

  predicate DiesIn(dead: seq<Death>, n: nat, a: Address)
    requires n <= |dead|
  {
    exists i :: 0 <= i < n && dead[i].actor == a
  }

  predicate Distinct(dead: seq<Death>) {
    forall i, j :: 0 <= i < j < |dead| ==> dead[i].actor != dead[j].actor
  }

  lemma {:induction false} NotifyAllMeans(r: Registry, dead: seq<Death>, n: nat)
    requires Inverse(r) && n <= |dead|
    ensures var r' := NotifyAll(r, dead, n).0;
            && Inverse(r')
            && (forall w, t :: Watches(r', w, t) <==> Watches(r, w, t) && !DiesIn(dead, n, t))
            && (forall a :: DiesIn(dead, n, a) ==> a !in r'.watchers)
    decreases n
  {
    if n > 0 {
      NotifyAllMeans(r, dead, n - 1);
      NotifyMeans(NotifyAll(r, dead, n - 1).0, dead[n - 1].actor);
      assert forall a :: DiesIn(dead, n, a) <==> DiesIn(dead, n - 1, a) || a == dead[n - 1].actor;
    }
  }

  lemma {:induction false} CleanupAllMeans(r: Registry, dead: seq<Death>, n: nat)
    requires Inverse(r) && n <= |dead|
    ensures var r' := CleanupAll(r, dead, n);
            && Inverse(r') && r'.watchers.Keys <= r.watchers.Keys
            && (forall w, t :: Watches(r', w, t) <==> Watches(r, w, t) && !DiesIn(dead, n, w))
            && (forall a :: DiesIn(dead, n, a) ==> a !in r'.watching)
    decreases n
  {
    if n > 0 {
      CleanupAllMeans(r, dead, n - 1);
      CleanupMeans(CleanupAll(r, dead, n - 1), dead[n - 1].actor);
      assert forall a :: DiesIn(dead, n, a) <==> DiesIn(dead, n - 1, a) || a == dead[n - 1].actor;
    }
  }

  /**
   After a batch of deaths the indexes are still inverses, exactly the watches between survivors are
   left, and no dead address is a key or a member of either index.
   */
  lemma BatchForgetsTheDead(r: Registry, dead: seq<Death>, a: Address, b: Address)
    requires Inverse(r)
    ensures var r' := Batch(r, dead).0;
            && Inverse(r')
            && (Watches(r', a, b) <==> Watches(r, a, b) && !DiesIn(dead, |dead|, a) && !DiesIn(dead, |dead|, b))
            && (DiesIn(dead, |dead|, a) ==>
                  && a !in r'.watchers && a !in r'.watching
                  && !Has(r'.watchers, b, a) && !Has(r'.watching, b, a))
  {
    var r1 := NotifyAll(r, dead, |dead|).0;
    NotifyAllMeans(r, dead, |dead|);
    CleanupAllMeans(r1, dead, |dead|);
    var r' := Batch(r, dead).0;
    assert Agree(r', b, a) && Agree(r', a, b);
    assert Watches(r', b, a) <==> Watches(r1, b, a) && !DiesIn(dead, |dead|, b);
  }

  lemma WatchesAfter(r: Registry, dead: seq<Death>, n: nat, w: Address, t: Address)
    requires Inverse(r) && n <= |dead|
    ensures Watches(NotifyAll(r, dead, n).0, w, t) <==> Watches(r, w, t) && !DiesIn(dead, n, t)
  {
    NotifyAllMeans(r, dead, n);
  }

  lemma NoticesCount(r: Registry, d: Death, w: Address, e: Death)
    ensures Notices(r, d)[NoticeOf(e, w)] ==
              if Watches(r, w, d.actor) && NoticeOf(e, w) == NoticeOf(d, w) then 1 else 0
  {
    var ns := NoticeSet(d, Entry(r.watchers, d.actor));
    assert NoticeOf(e, w) in ns <==> Watches(r, w, d.actor) && NoticeOf(e, w) == NoticeOf(d, w);
  }

  lemma LastNotices(r: Registry, dead: seq<Death>, n: nat, k: nat, w: Address)
    requires Distinct(dead) && 0 < n <= |dead| && k < |dead|
    ensures Notices(r, dead[n - 1])[NoticeOf(dead[k], w)] == if k == n - 1 && Watches(r, w, dead[k].actor) then 1 else 0
  {
    NoticesCount(r, dead[n - 1], w, dead[k]);
    if k != n - 1 { assert dead[k].actor != dead[n - 1].actor; }
  }

  lemma NotYetDead(dead: seq<Death>, n: nat)
    requires Distinct(dead) && n < |dead|
    ensures !DiesIn(dead, n, dead[n].actor)
  {
  }

  lemma SumOfNotices(a: multiset<Notice>, b: multiset<Notice>, x: Notice)
    ensures (a + b)[x] == a[x] + b[x]
  {
  }

  /**
   A batch of distinct deaths sends each watcher of each of the dead exactly one notice of that death,
   also if the watcher dies in the same batch, and nobody else any.
   */
  lemma {:induction false} OneNoticePerWatch(r: Registry, dead: seq<Death>, n: nat, k: nat, w: Address)
    requires Inverse(r) && Distinct(dead) && n <= |dead| && k < |dead|
    ensures NotifyAll(r, dead, n).1[NoticeOf(dead[k], w)] == if k < n && Watches(r, w, dead[k].actor) then 1 else 0
    decreases n
  {
    if n > 0 {
      var (r1, ns) := NotifyAll(r, dead, n - 1);
      OneNoticePerWatch(r, dead, n - 1, k, w);
      LastNotices(r1, dead, n, k, w);
      SumOfNotices(ns, Notices(r1, dead[n - 1]), NoticeOf(dead[k], w));
      if k == n - 1 {
        WatchesAfter(r, dead, k, w, dead[k].actor);
        NotYetDead(dead, k);
      }
    }
  }

  // ─── any interleaving of calls ─────────────────────────────────────────────

  /** One call of any worker; the lock is held for the call and no longer. */
  datatype Call =
    | WatchCall(watcher: Address, target: Address)
    | NotifyCall(death: Death)
    | CleanupCall(actor: Address)

  function After(r: Registry, c: Call): (r': Registry) {
    match c
    case WatchCall(w, t) => Watch(r, w, t)
    case NotifyCall(d) => NotifyDeath(r, d.actor)
    case CleanupCall(a) => CleanupWatcher(r, a)
  }

  function RunTo(r: Registry, calls: seq<Call>, n: nat): (r': Registry)
    requires n <= |calls|
  {
    if n == 0 then r else After(RunTo(r, calls, n - 1), calls[n - 1])
  }

  /** The call ends the watch of `t` by `w`, if there is one. */
  predicate Ends(c: Call, w: Address, t: Address) {
    (c.NotifyCall? && c.death.actor == t) || c == CleanupCall(w)
  }

  lemma AfterMeans(r: Registry, c: Call)
    requires Inverse(r)
    ensures Inverse(After(r, c))
    ensures forall w, t :: Watches(After(r, c), w, t) <==> c == WatchCall(w, t) || (Watches(r, w, t) && !Ends(c, w, t))
  {
    match c
    case WatchCall(w, t) => WatchMeans(r, w, t);
    case NotifyCall(d) => NotifyMeans(r, d.actor);
    case CleanupCall(a) => CleanupMeans(r, a);
  }

  /** The indexes stay inverses over every interleaving of calls. */
  lemma {:induction false} StaysInverse(r: Registry, calls: seq<Call>, n: nat)
    requires Inverse(r) && n <= |calls|
    ensures Inverse(RunTo(r, calls, n))
    decreases n
  {
    if n > 0 {
      StaysInverse(r, calls, n - 1);
      AfterMeans(RunTo(r, calls, n - 1), calls[n - 1]);
    }
  }

  /** None of the calls from `k` up to `n` ends the watch. */
  predicate Unended(calls: seq<Call>, k: nat, n: nat, w: Address, t: Address)
    requires n <= |calls|
  {
    forall i :: k <= i < n ==> !Ends(calls[i], w, t)
  }

  predicate BegunAt(calls: seq<Call>, k: nat, n: nat, w: Address, t: Address)
    requires n <= |calls|
  {
    k < n && calls[k] == WatchCall(w, t) && Unended(calls, k + 1, n, w, t)
  }

  /** The watch was there from the start or was begun, and nothing has ended it since. */
  ghost predicate Stands(r: Registry, calls: seq<Call>, n: nat, w: Address, t: Address)
    requires n <= |calls|
  {
    (Watches(r, w, t) && Unended(calls, 0, n, w, t)) || exists k: nat :: BegunAt(calls, k, n, w, t)
  }

  lemma StandsOneMore(r: Registry, calls: seq<Call>, n: nat, w: Address, t: Address)
    requires n < |calls|
    ensures Stands(r, calls, n + 1, w, t) <==>
              calls[n] == WatchCall(w, t) || (Stands(r, calls, n, w, t) && !Ends(calls[n], w, t))
  {
    if calls[n] == WatchCall(w, t) { assert BegunAt(calls, n, n + 1, w, t); }
    var n' := n + 1;
    if k: nat :| BegunAt(calls, k, n, w, t) && !Ends(calls[n], w, t) { assert BegunAt(calls, k, n', w, t); }
    if k: nat :| BegunAt(calls, k, n', w, t) && k < n { assert BegunAt(calls, k, n, w, t); }
  }

  /** After any interleaving of calls, exactly the watches that stand are in the indexes. */
  lemma {:induction false} WatchStandsIff(r: Registry, calls: seq<Call>, n: nat, w: Address, t: Address)
    requires Inverse(r) && n <= |calls|
    ensures Watches(RunTo(r, calls, n), w, t) <==> Stands(r, calls, n, w, t)
    decreases n
  {
    if n > 0 {
      WatchStandsIff(r, calls, n - 1, w, t);
      StandsOneMore(r, calls, n - 1, w, t);
      StaysInverse(r, calls, n - 1);
      AfterMeans(RunTo(r, calls, n - 1), calls[n - 1]);
    }
  }

  // ─── what is left of the dead ──────────────────────────────────────────────

  /** No target is kept without a watcher. */
  predicate Pruned(r: Registry) {
    forall t :: t in r.watchers ==> r.watchers[t] != {}
  }

  lemma AfterKeepsPruned(r: Registry, c: Call)
    requires Pruned(r)
    ensures Pruned(After(r, c))
  {
  }

  predicate OpenedAt(calls: seq<Call>, k: nat, n: nat, a: Address)
    requires n <= |calls|
  {
    k < n && calls[k].WatchCall? && calls[k].watcher == a && forall i :: k < i < n ==> calls[i] != CleanupCall(a)
  }

  ghost predicate IsOpened(calls: seq<Call>, n: nat, a: Address)
    requires n <= |calls|
  {
    exists k: nat :: OpenedAt(calls, k, n, a)
  }

  lemma OpenedOneMore(calls: seq<Call>, n: nat, a: Address)
    requires n < |calls|
    ensures IsOpened(calls, n + 1, a) <==>
              (calls[n].WatchCall? && calls[n].watcher == a) || (IsOpened(calls, n, a) && calls[n] != CleanupCall(a))
  {
    if calls[n].WatchCall? && calls[n].watcher == a { assert OpenedAt(calls, n, n + 1, a); }
    var n' := n + 1;
    if k: nat :| OpenedAt(calls, k, n, a) && calls[n] != CleanupCall(a) { assert OpenedAt(calls, k, n', a); }
    if k: nat :| OpenedAt(calls, k, n', a) && k < n { assert OpenedAt(calls, k, n, a); }
  }

  /** A watcher has an entry exactly if it began a watch after it was last cleaned up. */
  lemma {:induction false} WatcherIsKeyIff(calls: seq<Call>, n: nat, a: Address)
    requires n <= |calls|
    ensures Pruned(RunTo(Empty(), calls, n))
    ensures a in RunTo(Empty(), calls, n).watching <==> IsOpened(calls, n, a)
    decreases n
  {
    if n > 0 {
      WatcherIsKeyIff(calls, n - 1, a);
      OpenedOneMore(calls, n - 1, a);
      AfterKeepsPruned(RunTo(Empty(), calls, n - 1), calls[n - 1]);
    }
  }

  /** The address is neither a key nor a member of either index. */
  ghost predicate Gone(r: Registry, a: Address) {
    && a !in r.watchers && a !in r.watching
    && forall b :: !Has(r.watchers, b, a) && !Has(r.watching, b, a)
  }

  lemma GoneMeans(r: Registry, a: Address)
    requires Inverse(r) && Pruned(r)
    ensures Gone(r, a) <==> (forall w :: !Watches(r, w, a)) && a !in r.watching
  {
    if a !in r.watching && forall w :: !Watches(r, w, a) {
      if a in r.watchers {
        var w :| w in r.watchers[a];
        assert Watches(r, w, a);
      }
      forall b ensures !Has(r.watchers, b, a) && !Has(r.watching, b, a) {
        assert Agree(r, a, b) && Agree(r, b, a);
        assert !Watches(r, b, a);
      }
    }
    if Gone(r, a) {
      forall w ensures !Watches(r, w, a) {}
    }
  }

  /** `i` is the last notice of the actor's death and `j` its last clean-up. */
  predicate LastRites(calls: seq<Call>, a: Address, i: nat, j: nat) {
    && i < j < |calls|
    && calls[i].NotifyCall? && calls[i].death.actor == a && calls[j] == CleanupCall(a)
    && (forall k :: i < k < |calls| && calls[k].NotifyCall? ==> calls[k].death.actor != a)
    && (forall k :: j < k < |calls| ==> calls[k] != CleanupCall(a))
  }

  /**
   A watch that outlives the dead: of the dead, after the notice, by a watcher not cleaned up since; or
   by the dead, after its clean-up.
   */
  predicate Late(calls: seq<Call>, a: Address, i: nat, j: nat, k: nat)
    requires k < |calls|
  {
    && calls[k].WatchCall?
    && ((i < k && calls[k].target == a && forall m :: k < m < |calls| ==> calls[m] != CleanupCall(calls[k].watcher))
        || (j < k && calls[k].watcher == a))
  }

  lemma LateWatchStands(calls: seq<Call>, a: Address, i: nat, j: nat)
    requires LastRites(calls, a, i, j)
    ensures (exists w :: Stands(Empty(), calls, |calls|, w, a)) || IsOpened(calls, |calls|, a)
            <==> exists k :: 0 <= k < |calls| && Late(calls, a, i, j, k)
  {
    var n := |calls|;
    if k :| 0 <= k < n && Late(calls, a, i, j, k) {
      if j < k && calls[k].watcher == a {
        assert OpenedAt(calls, k, n, a);
      } else {
        assert BegunAt(calls, k, n, calls[k].watcher, a);
        assert Stands(Empty(), calls, n, calls[k].watcher, a);
      }
    }
    if w :| Stands(Empty(), calls, n, w, a) {
      var k: nat :| BegunAt(calls, k, n, w, a);
      assert Ends(calls[i], w, a);
      assert i < k;
      forall m | k < m < n ensures calls[m] != CleanupCall(w) { assert !Ends(calls[m], w, a); }
      assert Late(calls, a, i, j, k);
    }
    if k: nat :| OpenedAt(calls, k, n, a) {
      assert j < k;
      assert Late(calls, a, i, j, k);
    }
  }

  /**
   After any interleaving of calls in which an actor's death was announced and the actor then cleaned
   up, nothing of it is left in either index if and only if no watch came too late.
   */
  lemma DeadAreForgottenIff(calls: seq<Call>, a: Address, i: nat, j: nat)
    requires LastRites(calls, a, i, j)
    ensures Gone(RunTo(Empty(), calls, |calls|), a) <==> !exists k :: 0 <= k < |calls| && Late(calls, a, i, j, k)
  {
    var r := RunTo(Empty(), calls, |calls|);
    StaysInverse(Empty(), calls, |calls|);
    WatcherIsKeyIff(calls, |calls|, a);
    GoneMeans(r, a);
    LateWatchStands(calls, a, i, j);
    forall w ensures Watches(r, w, a) <==> Stands(Empty(), calls, |calls|, w, a) {
      WatchStandsIff(Empty(), calls, |calls|, w, a);
    }
  }

  /** A watch of actor 1 between the notice of its death and its clean-up keeps the dead actor as a key. */
  lemma LateWatchKeepsTheDead()
    ensures var calls := [NotifyCall(Death(1, Normal, None)), WatchCall(2, 1), CleanupCall(1)];
            var r := RunTo(Empty(), calls, 3);
            1 in r.watchers && Has(r.watching, 2, 1)
  {
    var calls := [NotifyCall(Death(1, Normal, None)), WatchCall(2, 1), CleanupCall(1)];
    var r1 := After(RunTo(Empty(), calls, 0), calls[0]);
    var r2 := After(r1, calls[1]);
    assert RunTo(Empty(), calls, 1) == r1;
    assert RunTo(Empty(), calls, 2) == r2;
    assert r2.watchers[1] == {2} && r2.watching[2] == {1};
  }

  // ─── notices over any interleaving ─────────────────────────────────────────

  /** All notices the first `n` calls hand out. */
  function ToldTo(r: Registry, calls: seq<Call>, n: nat): (ns: multiset<Notice>)
    requires n <= |calls|
  {
    if n == 0 then multiset{}
    else
      ToldTo(r, calls, n - 1) +
      if calls[n - 1].NotifyCall? then Notices(RunTo(r, calls, n - 1), calls[n - 1].death) else multiset{}
  }

  /** No other call announces the death announced by call `i`. */
  predicate AnnouncedOnce(calls: seq<Call>, i: nat) {
    && i < |calls| && calls[i].NotifyCall?
    && forall k :: 0 <= k < |calls| && calls[k].NotifyCall? && k != i ==> calls[k].death.actor != calls[i].death.actor
  }

  /**
   Over any interleaving, a death announced once is told exactly once to each watcher whose watch
   stands at that moment, and to nobody else.
   */
  lemma {:induction false} OneNoticePerStandingWatch(r: Registry, calls: seq<Call>, n: nat, i: nat, w: Address)
    requires Inverse(r) && n <= |calls| && AnnouncedOnce(calls, i)
    ensures ToldTo(r, calls, n)[NoticeOf(calls[i].death, w)] ==
              if i < n && Stands(r, calls, i, w, calls[i].death.actor) then 1 else 0
    ensures NoticeOf(calls[i].death, w).watcher == w && Tells(NoticeOf(calls[i].death, w), calls[i].death)
    decreases n
  {
    if n > 0 {
      OneNoticePerStandingWatch(r, calls, n - 1, i, w);
      var r1 := RunTo(r, calls, n - 1);
      if calls[n - 1].NotifyCall? {
        NoticesCount(r1, calls[n - 1].death, w, calls[i].death);
        SumOfNotices(ToldTo(r, calls, n - 1), Notices(r1, calls[n - 1].death), NoticeOf(calls[i].death, w));
        WatchStandsIff(r, calls, n - 1, w, calls[n - 1].death.actor);
      }
    }
  }

  /** The notice is of the death call `i` announces, to a watcher whose watch stood at that moment. */
  ghost predicate ToldBy(r: Registry, calls: seq<Call>, i: nat, n: Notice) {
    && i < |calls| && calls[i].NotifyCall? && Tells(n, calls[i].death)
    && Stands(r, calls, i, n.watcher, calls[i].death.actor)
  }

  lemma NoticesAreOf(r: Registry, d: Death, n: Notice)
    requires n in Notices(r, d)
    ensures Tells(n, d) && Watches(r, n.watcher, d.actor)
  {
    assert n in NoticeSet(d, Entry(r.watchers, d.actor));
  }

  /** Over any interleaving, every notice sent tells of a death that was announced, as it was, to one who watched. */
  lemma {:induction false} EveryNoticeIsOfADeath(r: Registry, calls: seq<Call>, n: nat, notice: Notice)
    requires Inverse(r) && n <= |calls| && notice in ToldTo(r, calls, n)
    ensures exists i: nat :: i < n && ToldBy(r, calls, i, notice)
    decreases n
  {
    if notice in ToldTo(r, calls, n - 1) {
      EveryNoticeIsOfADeath(r, calls, n - 1, notice);
    } else {
      var r1, d := RunTo(r, calls, n - 1), calls[n - 1].death;
      NoticesAreOf(r1, d, notice);
      WatchStandsIff(r, calls, n - 1, notice.watcher, d.actor);
      assert ToldBy(r, calls, n - 1, notice);
    }
  }

  // ─── an undisturbed batch ──────────────────────────────────────────────────

  /** These are the calls one worker makes for a batch of deaths. */
  predicate BatchCalls(calls: seq<Call>, dead: seq<Death>) {
    && |calls| == 2 * |dead|
    && (forall k :: 0 <= k < |dead| ==> calls[k] == NotifyCall(dead[k]))
    && (forall k :: 0 <= k < |dead| ==> calls[|dead| + k] == CleanupCall(dead[k].actor))
  }

  lemma {:induction false} NotifiesAreCalls(r: Registry, calls: seq<Call>, dead: seq<Death>, n: nat)
    requires BatchCalls(calls, dead) && n <= |dead|
    ensures RunTo(r, calls, n) == NotifyAll(r, dead, n).0
    ensures ToldTo(r, calls, n) == NotifyAll(r, dead, n).1
    decreases n
  {
    if n > 0 {
      NotifiesAreCalls(r, calls, dead, n - 1);
      assert calls[n - 1] == NotifyCall(dead[n - 1]);
    }
  }

  lemma {:induction false} CleanupsAreCalls(r: Registry, calls: seq<Call>, dead: seq<Death>, n: nat)
    requires BatchCalls(calls, dead) && n <= |dead|
    ensures RunTo(r, calls, |dead| + n) == CleanupAll(RunTo(r, calls, |dead|), dead, n)
    decreases n
  {
    if n > 0 {
      CleanupsAreCalls(r, calls, dead, n - 1);
      assert calls[|dead| + (n - 1)] == CleanupCall(dead[n - 1].actor);
    }
  }

  lemma {:induction false} CleanupsTellNobody(r: Registry, calls: seq<Call>, dead: seq<Death>, n: nat)
    requires BatchCalls(calls, dead) && n <= |dead|
    ensures ToldTo(r, calls, |dead| + n) == ToldTo(r, calls, |dead|)
    decreases n
  {
    if n > 0 {
      CleanupsTellNobody(r, calls, dead, n - 1);
      assert calls[|dead| + (n - 1)] == CleanupCall(dead[n - 1].actor);
    }
  }

  /** A batch that no other call interrupts is the run of its own calls. */
  lemma BatchIsCalls(r: Registry, calls: seq<Call>, dead: seq<Death>)
    requires BatchCalls(calls, dead)
    ensures Batch(r, dead) == (RunTo(r, calls, |calls|), ToldTo(r, calls, |calls|))
  {
    NotifiesAreCalls(r, calls, dead, |dead|);
    CleanupsAreCalls(r, calls, dead, |dead|);
    CleanupsTellNobody(r, calls, dead, |dead|);
  }

  lemma AnnounceOne(notices: seq<Notice>, done: set<Address>, d: Death, w: Address)
    requires multiset(notices) == multiset(NoticeSet(d, done)) && w !in done
    ensures multiset(notices + [NoticeOf(d, w)]) == multiset(NoticeSet(d, done + {w}))
  {
    assert NoticeSet(d, done + {w}) == NoticeSet(d, done) + {NoticeOf(d, w)};
    assert NoticeOf(d, w) !in NoticeSet(d, done);
    assert multiset(NoticeSet(d, done + {w})) == multiset(NoticeSet(d, done)) + multiset{NoticeOf(d, w)};
  }

  function ForgetIn(index: Index, k: Address, a: Address): (index': Index) {
    if k in index then index[k := index[k] - {a}] else index
  }

  function PruneIn(index: Index, k: Address, a: Address): (index': Index) {
    if k !in index then index else if index[k] - {a} == {} then index - {k} else index[k := index[k] - {a}]
  }

  lemma ForgetOneMore(index: Index, done: set<Address>, a: Address, k: Address)
    requires k !in done
    ensures Forget(index, done + {k}, a) == ForgetIn(Forget(index, done, a), k, a)
  {
    var now, after := ForgetIn(Forget(index, done, a), k, a), Forget(index, done + {k}, a);
    assert now.Keys == after.Keys;
    forall x | x in after ensures after[x] == now[x] {}
  }

  lemma PruneOneMore(index: Index, done: set<Address>, a: Address, k: Address)
    requires k !in done
    ensures ForgetAndPrune(index, done + {k}, a) == PruneIn(ForgetAndPrune(index, done, a), k, a)
  {
    var now, after := PruneIn(ForgetAndPrune(index, done, a), k, a), ForgetAndPrune(index, done + {k}, a);
    assert k in index ==> (index[k] <= {a} <==> index[k] - {a} == {});
    assert now.Keys == after.Keys;
    forall x | x in after ensures after[x] == now[x] {}
  }

  // ─── the registry itself ───────────────────────────────────────────────────

  class WatchRegistry {
    var watchers: Index
    var watching: Index

    ghost function Abs(): Registry
      reads this
    {
      Registry(watchers, watching)
    }

    constructor Create()
      ensures Abs() == Empty()
    {
      watchers, watching := map[], map[];
    }

    method AddWatch(watcher: Address, target: Address)
      modifies this
      ensures Abs() == Watch(old(Abs()), watcher, target)
      ensures old(Inverse(Abs())) ==>
                && Inverse(Abs())
                && forall w, t :: Watches(Abs(), w, t) <==> old(Watches(Abs(), w, t)) || (w == watcher && t == target)
    {
      ghost var r := Abs();
      watchers := watchers[target := Entry(watchers, target) + {watcher}];
      watching := watching[watcher := Entry(watching, watcher) + {target}];
      if Inverse(r) { WatchMeans(r, watcher, target); }
    }

    /** Takes the target's watchers out, with their own entries for it, and makes a notice for each. */
    method Announce(d: Death) returns (notices: seq<Notice>)
      modifies this
      ensures Abs() == NotifyDeath(old(Abs()), d.actor) && multiset(notices) == Notices(old(Abs()), d)
    {
      var told := Entry(watchers, d.actor);
      watchers := watchers - {d.actor};
      notices := [];
      var todo := told;
      ghost var done := {};
      while todo != {}
        invariant done + todo == told && done !! todo && watchers == old(watchers) - {d.actor}
        invariant watching == Forget(old(watching), done, d.actor)
        invariant multiset(notices) == multiset(NoticeSet(d, done))
        decreases |todo|
      {
        var w :| w in todo;
        AnnounceOne(notices, done, d, w);
        ForgetOneMore(old(watching), done, d.actor, w);
        watching := ForgetIn(watching, w, d.actor);
        notices := notices + [NoticeOf(d, w)];
        todo, done := todo - {w}, done + {w};
      }
    }

    method ForgetTarget(target: Address, watcher: Address)
      modifies this`watchers
      ensures watchers == PruneIn(old(watchers), target, watcher)
    {
      if target in watchers {
        var rest := watchers[target] - {watcher};
        if rest == {} { watchers := watchers - {target}; } else { watchers := watchers[target := rest]; }
      }
    }

    /** Takes a watcher out, with its place in the entries of all its targets. */
    method Forgotten(watcher: Address)
      modifies this
      ensures Abs() == CleanupWatcher(old(Abs()), watcher)
    {
      var targets := Entry(watching, watcher);
      watching := watching - {watcher};
      var todo := targets;
      ghost var done := {};
      while todo != {}
        invariant done + todo == targets && done !! todo && watching == old(watching) - {watcher}
        invariant watchers == ForgetAndPrune(old(watchers), done, watcher)
        decreases |todo|
      {
        var t :| t in todo;
        PruneOneMore(old(watchers), done, watcher, t);
        ForgetTarget(t, watcher);
        todo, done := todo - {t}, done + {t};
      }
    }

    /** Everything the registry does for a batch of dead actors. */
    method HandleDeaths(dead: seq<Death>) returns (notices: seq<Notice>)
      modifies this
      ensures (Abs(), multiset(notices)) == Batch(old(Abs()), dead)
    {
      notices := [];
      for i := 0 to |dead|
        invariant (Abs(), multiset(notices)) == NotifyAll(old(Abs()), dead, i)
      {
        var more := Announce(dead[i]);
        notices := notices + more;
      }
      ghost var notified := Abs();
      for i := 0 to |dead|
        invariant Abs() == CleanupAll(notified, dead, i)
      {
        Forgotten(dead[i].actor);
      }
    }
  }
}
