/** What the session registry promises over whole request/completion
    exchanges, including the interleavings the source leaves open. */
module SessionProperties {
  import opened Sequences
  import opened Text
  import opened Sessions

  /** The callback of the call just issued sits at the end of `pending`, and
      completing it leaves the callbacks that were pending before. */
  lemma {:induction false} ResolveLatest(s: State, c: Callback)
    ensures var s' := Issue(s, c);
      |s.pending| < |s'.pending| && s'.pending[|s.pending|] == c
      && Resolve(s', |s.pending|).pending == s.pending
  {
    var s' := Issue(s, c);
    assert s'.pending[..|s.pending|] == s.pending;
  }

  /** An enable for a tab not yet attached, with the attach and the override
      both succeeding: the tab is registered, the attach precedes the
      override, and the indicator is set active last. */
  lemma EnableFreshTabSucceeds(v: Version, s: State, tabId: int, tz: string)
    requires Inv(s) && tabId != 0 && !IsAttached(s, tabId)
    ensures var s1 := Enable(s, tabId, tz);
      var k1 := |s.pending|;
      k1 < |s1.pending| && s1.pending[k1].AttachCallback? &&
      var s2 := AttachResult(s1, k1, true);
      var k2 := |s.pending|;
      k2 < |s2.pending| && s2.pending[k2].OverrideCallback? &&
      var s3 := CommandResult(v, s2, k2, true);
      && s3.attachedTabs == s.attachedTabs[tabId := true]
      && s3.pending == s.pending
      && s3.trace == s.trace + [Issued(Attach(tabId, ProtocolVersion)),
                                Issued(SetTimezoneOverride(tabId, tz)),
                                Indicator(tabId, true)]
  {
    ResolveLast(AttachSucceeding(s, tabId, tz), s.pending, OverrideCallback(tabId, tz, true));
    AppendOne(s.trace, Issued(Attach(tabId, ProtocolVersion)), Issued(SetTimezoneOverride(tabId, tz)), Indicator(tabId, true));
  }

  /** A failed attach registers nothing and sends no override: all that is
      left of the enable is the attempted attach. */
  lemma EnableFreshTabAttachFails(s: State, tabId: int, tz: string)
    requires Inv(s) && tabId != 0 && !IsAttached(s, tabId)
    ensures var s1 := Enable(s, tabId, tz);
      var k := |s.pending|;
      k < |s1.pending| && s1.pending[k].AttachCallback? &&
      var s2 := AttachResult(s1, k, false);
      && s2.attachedTabs == s.attachedTabs
      && !IsAttached(s2, tabId)
      && s2.pending == s.pending
      && s2.trace == s.trace + [Issued(Attach(tabId, ProtocolVersion))]
  {
    ResolveLatest(s, AttachCallback(tabId, tz));
  }

  /** A failed override after a successful attach leaves the tab attached and
      the indicator untouched. */
  lemma EnableFreshTabOverrideFails(v: Version, s: State, tabId: int, tz: string)
    requires Inv(s) && tabId != 0 && !IsAttached(s, tabId)
    ensures var s1 := Enable(s, tabId, tz);
      var k := |s.pending|;
      k < |s1.pending| && s1.pending[k].AttachCallback? &&
      var s2 := AttachResult(s1, k, true);
      k < |s2.pending| && s2.pending[k].OverrideCallback? &&
      var s3 := CommandResult(v, s2, k, false);
      && IsAttached(s3, tabId)
      && s3.pending == s.pending
      && s3.trace == s.trace + [Issued(Attach(tabId, ProtocolVersion)),
                                Issued(SetTimezoneOverride(tabId, tz))]
  {
    ResolveLast(AttachSucceeding(s, tabId, tz), s.pending, OverrideCallback(tabId, tz, true));
  }

  /** For an attached tab, enable issues exactly one override and no attach;
      when it succeeds the current copy sets the indicator active and the
      older copy leaves the indicator alone. */
  lemma UpdateAttachedTab(v: Version, s: State, tabId: int, tz: string, ok: bool)
    requires Inv(s) && tabId != 0 && IsAttached(s, tabId)
    ensures var s1 := Enable(s, tabId, tz);
      var k := |s.pending|;
      k < |s1.pending| && s1.pending[k].OverrideCallback? &&
      var s2 := CommandResult(v, s1, k, ok);
      && s2.attachedTabs == s.attachedTabs
      && s2.pending == s.pending
      && s2.trace == s.trace + [Issued(SetTimezoneOverride(tabId, tz))]
                             + (if ok && v == Current then [Indicator(tabId, true)] else [])
  {
    ResolveLatest(s, OverrideCallback(tabId, tz, false));
  }

  /** A disable that completes: a failed detach keeps the registry as it was;
      a successful one removes this tab only and sets its indicator inactive. */
  lemma DisableCompletes(s: State, tabId: int, ok: bool)
    requires Inv(s) && tabId != 0 && IsAttached(s, tabId)
    ensures var s1 := Disable(s, tabId);
      var k := |s.pending|;
      k < |s1.pending| && s1.pending[k].DetachCallback? &&
      var s2 := DetachResult(s1, k, ok);
      && s2.pending == s.pending
      && (forall t :: t != tabId ==> (IsAttached(s2, t) <==> IsAttached(s, t)))
      && (IsAttached(s2, tabId) <==> !ok)
      && s2.trace == s.trace + [Issued(Detach(tabId))] + (if ok then [Indicator(tabId, false)] else [])
  {
    ResolveLatest(s, DetachCallback(tabId, false));
  }

  /** An enable of a tab not yet attached whose attach and override both
      succeed, taken as one step. */
  function EnableSucceeding(v: Version, s: State, tabId: int, tz: string): (r: State)
    requires Inv(s) && tabId != 0 && !IsAttached(s, tabId)
    ensures Inv(r)
    ensures r.attachedTabs == s.attachedTabs[tabId := true] && r.pending == s.pending
    ensures r.trace == s.trace + [Issued(Attach(tabId, ProtocolVersion)),
                                  Issued(SetTimezoneOverride(tabId, tz)),
                                  Indicator(tabId, true)]
  {
    EnableFreshTabSucceeds(v, s, tabId, tz);
    var k := |s.pending|;
    CommandResult(v, AttachResult(Enable(s, tabId, tz), k, true), k, true)
  }

  /** A disable of an attached tab whose detach succeeds, taken as one step. */
  function DisableSucceeding(s: State, tabId: int): (r: State)
    requires Inv(s) && tabId != 0 && IsAttached(s, tabId)
    ensures Inv(r)
    ensures r.attachedTabs == s.attachedTabs - {tabId} && r.pending == s.pending
    ensures r.trace == s.trace + [Issued(Detach(tabId)), Indicator(tabId, false)]
  {
    DisableCompletes(s, tabId, true);
    DetachResult(Disable(s, tabId), |s.pending|, true)
  }

  /** Disable undoes enable: after a successful enable and a successful
      disable of a tab that was not attached, the registry and the pending
      callbacks are as they were. */
  lemma DisableUndoesEnable(v: Version, s: State, tabId: int, tz: string)
    requires Inv(s) && tabId != 0 && !IsAttached(s, tabId)
    ensures var s1 := EnableSucceeding(v, s, tabId, tz);
      var s2 := DisableSucceeding(s1, tabId);
      s2.attachedTabs == s.attachedTabs && s2.pending == s.pending
  {
    var s1 := EnableSucceeding(v, s, tabId, tz);
    AddThenRemove(s.attachedTabs, tabId);
  }

  lemma AddThenRemove(m: map<int, bool>, t: int)
    requires t !in m
    ensures m[t := true] - {t} == m
  {
  }

  /** No in-flight guard: a second enable for the same tab before the first
      attach completes issues a second attach. */
  lemma DoubleEnableAttachesTwice(s: State, tabId: int, tz1: string, tz2: string)
    requires Inv(s) && tabId != 0 && !IsAttached(s, tabId)
    ensures var s2 := Enable(Enable(s, tabId, tz1), tabId, tz2);
      && s2.trace == s.trace + [Issued(Attach(tabId, ProtocolVersion)), Issued(Attach(tabId, ProtocolVersion))]
      && s2.pending == s.pending + [AttachCallback(tabId, tz1), AttachCallback(tabId, tz2)]
  {
    var s1 := Enable(s, tabId, tz1);
    assert !IsAttached(s1, tabId);
  }

  /** No ordering between a pending detach and a later enable: a disable whose
      detach is still pending, an enable that therefore only sends an
      override, the detach succeeding and then the override succeeding leave
      the tab detached with its indicator last set active. */
  lemma OverrideAfterDetachLeavesStaleIndicator(s: State, tabId: int, tz: string)
    requires Inv(s) && tabId != 0 && IsAttached(s, tabId)
    ensures var s1 := Disable(s, tabId);
      var s2 := Enable(s1, tabId, tz);
      var kd := |s.pending|;
      kd + 1 < |s2.pending| && s2.pending[kd].DetachCallback? &&
      var s3 := DetachResult(s2, kd, true);
      kd < |s3.pending| && s3.pending[kd].OverrideCallback? &&
      var s4 := CommandResult(Current, s3, kd, true);
      && !IsAttached(s4, tabId)
      && s4.trace[|s4.trace| - 1] == Indicator(tabId, true)
      && s4.pending == s.pending
  {
    var s1 := Disable(s, tabId);
    var s2 := Enable(s1, tabId, tz);
    var kd := |s.pending|;
    assert s2.pending == s.pending + [DetachCallback(tabId, false), OverrideCallback(tabId, tz, false)];
    var s3 := DetachResult(s2, kd, true);
    assert s3.pending == s.pending + [OverrideCallback(tabId, tz, false)] by {
      assert RemoveAt(s2.pending, kd) == s2.pending[..kd] + s2.pending[kd + 1..];
      assert s2.pending[..kd] == s.pending;
      assert s2.pending[kd + 1..] == [OverrideCallback(tabId, tz, false)];
    }
    assert (s.pending + [OverrideCallback(tabId, tz, false)])[..kd] == s.pending;
  }

  /** No ordering between a fresh attach's override and a later disable: the
      attach succeeds, a disable detaches the tab, and only then does the
      override succeed. The tab ends detached with its indicator last set
      active; in the older copy that is the `'•'` badge, since the override
      followed a fresh attach. */
  lemma StaleBadgeAfterFreshAttach(v: Version, s: State, tabId: int, tz: string)
    requires Inv(s) && tabId != 0 && !IsAttached(s, tabId)
    ensures var s2 := AttachSucceeding(s, tabId, tz);
      var s4 := DisableSucceeding(s2, tabId);
      var k := |s.pending|;
      k < |s4.pending| && s4.pending[k].OverrideCallback? && s4.pending[k].afterAttach &&
      var s5 := CommandResult(v, s4, k, true);
      && !IsAttached(s5, tabId)
      && s5.trace[|s5.trace| - 1] == Indicator(tabId, true)
      && s5.pending == s.pending
  {
    var s4 := DisableSucceeding(AttachSucceeding(s, tabId, tz), tabId);
    ResolveLast(s4, s.pending, OverrideCallback(tabId, tz, true));
  }

  /** Completing the last pending callback leaves the ones before it. */
  lemma ResolveLast(s: State, before: seq<Callback>, c: Callback)
    requires s.pending == before + [c]
    ensures Resolve(s, |before|).pending == before
  {
    assert s.pending[..|before|] == before;
    assert s.pending[|before| + 1..] == [];
  }

  /** The attach of a fresh tab succeeding, taken as one step: the override
      it sends is still pending. */
  function AttachSucceeding(s: State, tabId: int, tz: string): (r: State)
    requires Inv(s) && tabId != 0 && !IsAttached(s, tabId)
    ensures Inv(r)
    ensures r.attachedTabs == s.attachedTabs[tabId := true]
    ensures r.pending == s.pending + [OverrideCallback(tabId, tz, true)]
    ensures r.trace == s.trace + [Issued(Attach(tabId, ProtocolVersion)), Issued(SetTimezoneOverride(tabId, tz))]
  {
    ResolveLatest(s, AttachCallback(tabId, tz));
    AttachResult(Enable(s, tabId, tz), |s.pending|, true)
  }

  /** No stale-attach guard: a tab closed while its attach is pending is not
      yet in the map, so the close does nothing, and the attach that then
      succeeds registers the closed tab. */
  lemma ClosedTabReattaches(s: State, tabId: int, tz: string, throws: bool)
    requires Inv(s) && tabId != 0 && !IsAttached(s, tabId)
    ensures var s1 := TabRemoved(Enable(s, tabId, tz), tabId, throws);
      var k := |s.pending|;
      k < |s1.pending| && s1.pending[k].AttachCallback? &&
      IsAttached(AttachResult(s1, k, true), tabId)
  {
    ResolveLatest(s, AttachCallback(tabId, tz));
  }

  /** Navigation to an `http` page whose origin has a stored timezone enables
      it on the tab, exactly as a direct enable would, after the lookup. */
  lemma NavigationWithPreference(s: State, tabId: int, url: string, origin: string, tz: string)
    requires Inv(s) && StartsWith(url, "http") && url != "" && tz != ""
    ensures var s1 := TabUpdated(s, tabId, "loading", Some(url), Some(origin));
      var k := |s.pending|;
      k < |s1.pending| && s1.pending[k].LookupCallback? &&
      var s2 := LookupResult(s1, k, Stored(Some(tz)));
      s2 == Enable(s.(trace := s.trace + [Issued(StorageGet(origin))]), tabId, tz)
  {
    ResolveLatest(s, LookupCallback(tabId, origin));
  }

  /** Navigation without a stored timezone detaches only a tab that is
      attached; for any other tab it changes nothing but the lookup. A lookup
      that fails changes nothing either. */
  lemma NavigationWithoutPreference(s: State, tabId: int, url: string, origin: string, value: Option<string>, failed: bool)
    requires Inv(s) && StartsWith(url, "http") && url != "" && !Truthy(value)
    ensures var s1 := TabUpdated(s, tabId, "loading", Some(url), Some(origin));
      var k := |s.pending|;
      k < |s1.pending| && s1.pending[k].LookupCallback? &&
      var s2 := LookupResult(s1, k, if failed then StorageError else Stored(value));
      var looked := s.(trace := s.trace + [Issued(StorageGet(origin))]);
      s2 == (if !failed && IsAttached(s, tabId) then Disable(looked, tabId) else looked)
  {
    ResolveLatest(s, LookupCallback(tabId, origin));
  }

  /** Closing an attached tab removes its entry whether the detach then
      succeeds, fails, or throws at once, and touches no other tab. */
  lemma CloseRemovesEntry(s: State, tabId: int, ok: bool, throws: bool)
    requires Inv(s) && IsAttached(s, tabId)
    ensures var s1 := TabRemoved(s, tabId, throws);
      var k := |s.pending|;
      var s2 := if throws then s1 else
        assert k < |s1.pending| && s1.pending[k].DetachCallback?;
        DetachResult(s1, k, ok);
      && s2.attachedTabs == s.attachedTabs - {tabId}
      && s2.pending == s.pending
      && !IsAttached(s2, tabId)
      && (forall t :: t != tabId ==> (IsAttached(s2, t) <==> IsAttached(s, t)))
  {
    if !throws {
      ResolveLatest(s, DetachCallback(tabId, true));
    }
  }

  /** The router always answers `applyTimezone`, with `success: false` exactly
      when a host call was made and threw. */
  lemma RouterAlwaysAnswers(v: Version, s: State, tabId: int, timezone: Option<string>, thrown: Option<string>)
    requires Inv(s)
    ensures var r := Route(v, s, Message("applyTimezone", tabId, timezone), thrown);
      r.response.Some? && (r.response.value.success <==> !(thrown.Some? && CallsHost(s, tabId, timezone)))
  {
  }
}
