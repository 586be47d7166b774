/**
 * The pipeline tabs a caller may see: tabs that need push access are
 * hidden from callers without it, and a request without a repository
 * permission gets no tabs at all.
 */
module PipelineTabs {
  import opened Wrappers
  import opened UserModel
  import opened PipelineTabModel

  /** Whether a caller with push access `push` sees the tab. */
  predicate Visible<P(==)>(tab: Tab<P>, push: bool) {
    !tab.requiresPush || push
  }

  /** The visible tabs, in their configured order. */
  function VisibleTabs<P(==)>(tabs: seq<Tab<P>>, push: bool): seq<Tab<P>> {
    if tabs == [] then []
    else (if Visible(tabs[0], push) then [tabs[0]] else []) + VisibleTabs(tabs[1..], push)
  }

  /** `a` is `b` with some elements left out and the rest in order. */
  predicate Subsequence<T(==)>(a: seq<T>, b: seq<T>) {
    if b == [] then a == []
    else (a != [] && a[0] == b[0] && Subsequence(a[1..], b[1..])) || Subsequence(a, b[1..])
  }

  /** A tab is in the result exactly when it is configured and visible. */
  lemma {:induction false} VisibleTabsMembers<P>(tabs: seq<Tab<P>>, push: bool)
    ensures forall t :: t in VisibleTabs(tabs, push) <==> t in tabs && Visible(t, push)
  {
    if tabs != [] {
      VisibleTabsMembers(tabs[1..], push);
      assert forall t :: t in tabs <==> t == tabs[0] || t in tabs[1..];
    }
  }

  /** The result keeps the configured order: it is a subsequence of the
      configured tabs. */
  lemma {:induction false} VisibleTabsOrdered<P>(tabs: seq<Tab<P>>, push: bool)
    ensures Subsequence(VisibleTabs(tabs, push), tabs)
  {
    if tabs != [] {
      var rest := VisibleTabs(tabs[1..], push);
      VisibleTabsOrdered(tabs[1..], push);
      if Visible(tabs[0], push) {
        assert ([tabs[0]] + rest)[1..] == rest;
      } else {
        assert VisibleTabs(tabs, push) == rest;
      }
    }
  }

  /** A caller with push access sees every tab, unchanged and in order. */
  lemma {:induction false} PushSeesAll<P>(tabs: seq<Tab<P>>)
    ensures VisibleTabs(tabs, true) == tabs
  {
    if tabs != [] {
      PushSeesAll(tabs[1..]);
      assert [tabs[0]] + tabs[1..] == tabs;
    }
  }

  lemma VisibleTabsStep<P>(tabs: seq<Tab<P>>, i: nat, push: bool)
    requires i < |tabs|
    ensures VisibleTabs(tabs[i..], push)
      == (if Visible(tabs[i], push) then [tabs[i]] else []) + VisibleTabs(tabs[i + 1..], push)
  {
    assert tabs[i..][1..] == tabs[i + 1..];
  }

  /** `filterPipelineTabs`: `None` for a request without a permission,
      otherwise the visible tabs, collected one at a time. */
  method FilterTabs<P(==)>(tabs: seq<Tab<P>>, perm: Option<Perm>) returns (r: Option<seq<Tab<P>>>)
    ensures perm.None? <==> r.None?
    ensures perm.Some? ==> r == Some(VisibleTabs(tabs, perm.value.push))
  {
    if perm.None? {
      return None;
    }
    var push := perm.value.push;
    var result: seq<Tab<P>> := [];
    var i := 0;
    assert tabs[i..] == tabs;
    assert VisibleTabs(tabs, push) == result + VisibleTabs(tabs[i..], push);
    while i < |tabs|
      invariant 0 <= i <= |tabs|
      invariant VisibleTabs(tabs, push) == result + VisibleTabs(tabs[i..], push)
    {
      VisibleTabsStep(tabs, i, push);
      if tabs[i].requiresPush && !push {
        assert VisibleTabs(tabs[i..], push) == VisibleTabs(tabs[i + 1..], push);
        i := i + 1;
        continue;
      }
      assert VisibleTabs(tabs[i..], push) == [tabs[i]] + VisibleTabs(tabs[i + 1..], push);
      assert result + ([tabs[i]] + VisibleTabs(tabs[i + 1..], push))
          == (result + [tabs[i]]) + VisibleTabs(tabs[i + 1..], push);
      result := result + [tabs[i]];
      i := i + 1;
    }
    assert VisibleTabs(tabs[i..], push) == [];
    assert result + [] == result;
    return Some(result);
  }
}
