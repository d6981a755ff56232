/** The Stop branch of `Reconcile`: install what the spec declares and Helm does not have. */
module StopMode {
  import opened Api
  import opened Convergence
  import opened Reconciliation
  import opened Text
  import opened World

  /** From now on nobody else changes Helm or the resource; calls may fail all the same. */
  ghost predicate Alone(w: World) {
    forall t: nat | t >= w.clock :: w.env.turn(t).edit.None? && forall h :: w.env.turn(t).others(h) == h
  }

  lemma StillAlone(a: World, b: World)
    requires Alone(a) && b.env == a.env && a.clock <= b.clock
    ensures Alone(b)
  {
  }

  ghost predicate OneEach(events: seq<Event>, added: seq<Release>) {
    |events| == |added| && forall i | 0 <= i < |events| :: events[i].Installed? && events[i].key == ReleaseKey(added[i])
  }

  /**
   * From `a` to `b` some of the missing releases of `keys` were installed, each once and in one log
   * entry; everything that was there is still there unchanged, and nothing else was sent or written.
   */
  ghost predicate Installs(a: World, b: World, keys: set<Key>) {
    && SameResource(a, b)
    && a.helm <= b.helm && a.log <= b.log
    && OneEach(b.log[|a.log|..], b.helm[|a.helm|..])
    && (forall i | |a.helm| <= i < |b.helm| ::
          ReleaseKey(b.helm[i]) in keys - Keys(a.helm) && b.helm[i].revision == 1)
    && (forall i, j | 0 <= i < j && |a.helm| <= j < |b.helm| :: ReleaseKey(b.helm[i]) != ReleaseKey(b.helm[j]))
  }

  lemma KeysGrow(a: seq<Release>, b: seq<Release>)
    requires a <= b
    ensures Keys(a) <= Keys(b)
  {
    forall k | k in Keys(a)
      ensures k in Keys(b)
    {
      var i :| 0 <= i < |a| && ReleaseKey(a[i]) == k;
      assert b[i] in b;
    }
  }

  lemma InstallsChains(a: World, b: World, c: World, keys1: set<Key>, keys2: set<Key>)
    requires Installs(a, b, keys1) && Installs(b, c, keys2)
    ensures Installs(a, c, keys1 + keys2)
  {
    KeysGrow(a.helm, b.helm);
    forall i | |a.helm| <= i < |c.helm|
      ensures ReleaseKey(c.helm[i]) in keys1 + keys2 - Keys(a.helm) && c.helm[i].revision == 1
    {
      if i < |b.helm| {
        assert c.helm[i] == b.helm[i];
      }
    }
    forall i, j | 0 <= i < j && |a.helm| <= j < |c.helm|
      ensures ReleaseKey(c.helm[i]) != ReleaseKey(c.helm[j])
    {
      if j < |b.helm| {
        assert c.helm[i] == b.helm[i] && c.helm[j] == b.helm[j];
      }
    }
    assert c.log[|a.log|..] == b.log[|a.log|..] + c.log[|b.log|..];
    assert c.helm[|a.helm|..] == b.helm[|a.helm|..] + c.helm[|b.helm|..];
  }

  lemma StepInstalls(w: World, h: HelmInstall)
    requires Alone(w)
    ensures var (w1, found) := HasRelease(w, InstallKey(h));
            && Installs(w, w1, {})
            && (found.Some? ==> w1.helm == w.helm && (found.value <==> InstallKey(h) in Keys(w.helm)))
            && (found == Some(false) ==>
                  Installs(w1, Apply(w1, InstallKey(h)).0, {InstallKey(h)})
                  && (Apply(w1, InstallKey(h)).1 ==> InstallKey(h) in Keys(Apply(w1, InstallKey(h)).0.helm)))
  {
    hide Apply, Installs;
    assert w.Wake() == w.(clock := w.clock + 1);
    StillAlone(w, w.Wake());
    WakeInstalls(w);
    ApplyInstalls(w.Wake(), InstallKey(h));
  }

  lemma WakeInstalls(w: World)
    ensures Installs(w, w.(clock := w.clock + 1), {})
  {
  }

  lemma ApplyInstalls(w: World, key: Key)
    requires Alone(w)
    ensures var (w1, ok) := Apply(w, key);
            Installs(w, w1, {key}) && (ok ==> key in Keys(w1.helm))
  {
    assert w.Wake() == w.(clock := w.clock + 1);
    var w1 := Apply(w, key).0;
    forall i | 0 <= i < |w.helm|
      ensures ReleaseKey(w.helm[i]) in Keys(w.helm)
    {
      assert w.helm[i] in w.helm;
    }
    if |w1.helm| > |w.helm| {
      assert w1.helm[|w.helm|] in w1.helm;
    }
  }

  function DeclaredKeys(installs: seq<HelmInstall>): set<Key> {
    set h | h in installs :: Key(h.namespace, h.releaseName)
  }

  /**
   * A pass over the declared releases, with any calls failing: nothing is changed or removed, missing
   * declared releases may be added, a duplicate is installed once. A completed pass leaves every
   * declared release installed; a pass that finds them all installed does nothing.
   */
  lemma {:induction false} PassInstalls(w: World, installs: seq<HelmInstall>)
    requires Alone(w)
    ensures var (w1, ok) := InstallAll(w, installs);
            && Installs(w, w1, DeclaredKeys(installs))
            && (ok ==> DeclaredKeys(installs) <= Keys(w1.helm))
            && (DeclaredKeys(installs) <= Keys(w.helm) ==> w1.helm == w.helm && w1.log == w.log)
    decreases |installs|
  {
    hide Alone, Apply, HasRelease, Installs;
    if installs == [] {
      NothingInstalls(w);
    } else {
      var h := installs[0];
      var keys, rest := DeclaredKeys(installs), DeclaredKeys(installs[1..]);
      assert keys == {InstallKey(h)} + rest by {
        assert forall x :: x in installs <==> x == h || x in installs[1..];
      }
      StepInstalls(w, h);
      var (w1, found) := HasRelease(w, InstallKey(h));
      if found.None? {
        InstallsWeaker(w, w1, {}, keys);
      } else {
        var (w2, ok) := if found.value then (w1, true) else Apply(w1, InstallKey(h));
        if found.value {
          InstallsWeaker(w, w2, {}, {InstallKey(h)});
        } else {
          InstallsChains(w, w1, w2, {}, {InstallKey(h)});
          assert {} + {InstallKey(h)} == {InstallKey(h)};
        }
        InstallsEnv(w, w2, {InstallKey(h)});
        if ok {
          StillAlone(w, w2);
          PassInstalls(w2, installs[1..]);
          var w3 := InstallAll(w2, installs[1..]).0;
          InstallsChains(w, w2, w3, {InstallKey(h)}, rest);
          InstallsEnv(w2, w3, rest);
          KeysGrow(w2.helm, w3.helm);
        } else {
          InstallsWeaker(w, w2, {InstallKey(h)}, keys);
        }
        if keys <= Keys(w.helm) {
          InstallsNothing(w, w1, {});
        }
      }
      if keys <= Keys(w.helm) {
        InstallsNothing(w, w1, {});
      }
    }
  }

  /** Only a call that fails ends a pass early: a release that is installed already is no error. */
  lemma {:induction false} PassFailsWithACall(w: World, installs: seq<HelmInstall>)
    requires Alone(w)
    ensures var (w1, ok) := InstallAll(w, installs);
            && w1.env == w.env && w.clock <= w1.clock
            && (ok || exists t: nat :: w.clock <= t < w1.clock && !w.env.turn(t).fault.Delivered?)
    decreases |installs|
  {
    hide Keys;
    if installs != [] {
      var key := InstallKey(installs[0]);
      var (w1, found) := HasRelease(w, key);
      StillAlone(w, w1);
      assert w.Wake().helm == w.helm && w1.Wake().helm == w1.helm;
      var (w2, ok) := if found == Some(true) then (w1, true) else Apply(w1, key);
      if found.Some? && ok {
        StillAlone(w, w2);
        PassFailsWithACall(w2, installs[1..]);
      } else {
        var t := if found.Some? then w1.clock else w.clock;
        assert !w.env.turn(t).fault.Delivered?;
      }
    }
  }

  lemma NothingInstalls(w: World)
    ensures Installs(w, w, DeclaredKeys([])) && DeclaredKeys([]) == {}
  {
  }

  lemma InstallsWeaker(a: World, b: World, some: set<Key>, more: set<Key>)
    requires Installs(a, b, some) && some <= more
    ensures Installs(a, b, more)
  {
  }

  lemma InstallsEnv(a: World, b: World, keys: set<Key>)
    requires Installs(a, b, keys)
    ensures b.env == a.env && a.clock <= b.clock && b.current == a.current && a.helm <= b.helm
  {
  }

  lemma InstallsNothing(a: World, b: World, keys: set<Key>)
    requires Installs(a, b, keys) && keys <= Keys(a.helm)
    ensures b.helm == a.helm && b.log == a.log
  {
    if |b.helm| > |a.helm| {
      InstalledWasMissing(a, b, keys);
    }
    assert b.log == b.log[..|a.log|] + b.log[|a.log|..];
  }

  lemma InstalledWasMissing(a: World, b: World, keys: set<Key>)
    requires Installs(a, b, keys) && |b.helm| > |a.helm|
    ensures !(keys <= Keys(a.helm))
  {
    assert ReleaseKey(b.helm[|a.helm|]) in keys - Keys(a.helm);
  }

  /** A stopped reconcile, with a read that may be stale. */
  lemma StoppedReconcileInstalls(w: World)
    requires Alone(w) && Get(w).1.Some? && Get(w).1.value.spec.stop
    ensures var keys := DeclaredKeys(Get(w).1.value.spec.helm);
            var (w1, ok) := Reconcile(w);
            && Installs(w, w1, keys)
            && (ok ==> keys <= Keys(w1.helm))
            && (keys <= Keys(w.helm) ==> w1.helm == w.helm && w1.log == w.log)
  {
    hide InstallAll;
    var (w1, copy) := Get(w);
    assert w1 == w.(clock := w.clock + 1);
    var installs := copy.value.spec.helm;
    PassInstalls(w1, installs);
    var w2 := InstallAll(w1, installs).0;
    assert Installs(w, w1, {});
    InstallsChains(w, w1, w2, {}, DeclaredKeys(installs));
    assert {} + DeclaredKeys(installs) == DeclaredKeys(installs);
  }

  /**
   * Over runs: while the operator is stopped and reads are up to date, nothing but declared releases is
   * ever installed, each at most once, and nothing is reported, upgraded, removed or written.
   */
  lemma {:induction false} StoppedRunInstalls(w: World, n: nat)
    requires Alone(w) && w.current.spec.stop && forall t: nat | t >= w.clock :: w.env.turn(t).lag == 0
    ensures Installs(w, Run(w, n), DeclaredKeys(w.current.spec.helm))
  {
    hide Alone, Installs, Reconcile, DeclaredKeys;
    var keys := DeclaredKeys(w.current.spec.helm);
    if n == 0 {
      InstallsItself(w, keys);
    } else {
      StoppedRunInstalls(w, n - 1);
      var last := Run(w, n - 1);
      InstallsEnv(w, last, keys);
      StillAlone(w, last);
      ReadsCurrent(last);
      if Get(last).1.Some? {
        StoppedReconcileInstalls(last);
      } else {
        FailedGetInstalls(last, keys);
      }
      InstallsChains(w, last, Run(w, n), keys, keys);
      assert keys + keys == keys;
    }
  }

  lemma InstallsItself(w: World, keys: set<Key>)
    ensures Installs(w, w, keys)
  {
  }

  lemma ReadsCurrent(w: World)
    requires Alone(w) && w.Turn().lag == 0
    ensures Get(w).1.Some? ==> Get(w).1.value.spec == w.current.spec
  {
    assert w.Wake() == w.(clock := w.clock + 1);
  }

  lemma FailedGetInstalls(w: World, keys: set<Key>)
    requires Alone(w) && Get(w).1.None?
    ensures Installs(w, Reconcile(w).0, keys)
  {
    assert w.Wake() == w.(clock := w.clock + 1);
  }
}
