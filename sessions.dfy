/** The per-tab debugger-session registry of the background service worker,
    as pure transitions over one state value.

    Every host call (`chrome.debugger.attach`, `sendCommand`, `detach`, and
    `chrome.storage.sync.get` on navigation) is split in two: the request
    step appends the call to `trace` and its callback to `pending`; the
    completion step takes the callback at index `k` of `pending`, with the
    host's verdict, and applies the callback body. Completions may come in any
    order, and nothing stops a second request for a tab while the first is
    still pending: the source has no such guard. */
module Sessions {
  import opened Sequences
  import opened Text

  /** Which copy of the background script: js/background.js or the older
      background.js. */
  datatype Version = Current | Legacy

  /** The debugger protocol version passed to `chrome.debugger.attach`. */
  const ProtocolVersion: string := "1.3"

  datatype HostCall =
    | Attach(tabId: int, protocol: string)
    | SetTimezoneOverride(tabId: int, timezoneId: string)
    | Detach(tabId: int)
    | StorageGet(key: string)

  /** What the worker does that can be observed from outside: a host call, or
      the toolbar indicator set for a tab (`updateTabState`, or `updateBadge`
      in the older copy). */
  datatype Effect = Issued(call: HostCall) | Indicator(tabId: int, active: bool)

  /** A callback the host has yet to run. */
  datatype Callback =
    | AttachCallback(tabId: int, timezone: string)
    | OverrideCallback(tabId: int, timezone: string, afterAttach: bool)
    | DetachCallback(tabId: int, onClose: bool)
    | LookupCallback(tabId: int, origin: string)

  datatype State = State(attachedTabs: map<int, bool>, pending: seq<Callback>, trace: seq<Effect>)

  /** The host call a callback answers. */
  function CallOf(c: Callback): HostCall {
    match c
    case AttachCallback(t, _) => Attach(t, ProtocolVersion)
    case OverrideCallback(t, tz, _) => SetTimezoneOverride(t, tz)
    case DetachCallback(t, _) => Detach(t)
    case LookupCallback(_, origin) => StorageGet(origin)
  }

  /** `!!attachedTabs[tabId]`. */
  predicate IsAttached(s: State, tabId: int) {
    tabId in s.attachedTabs && s.attachedTabs[tabId]
  }

  /** The registry only ever maps real tabs to `true`, only holds tabs the
      worker asked to attach, and every pending callback answers a call that
      was issued (and, except for a storage lookup, names a real tab). */
  predicate Inv(s: State) {
    && 0 !in s.attachedTabs
    && (forall t :: t in s.attachedTabs ==> s.attachedTabs[t])
    && (forall t :: t in s.attachedTabs ==> Issued(Attach(t, ProtocolVersion)) in s.trace)
    && (forall c :: c in s.pending ==> Issued(CallOf(c)) in s.trace)
    && (forall c :: c in s.pending && !c.LookupCallback? ==> c.tabId != 0)
  }

  function Init(): (s: State)
    ensures Inv(s)
    ensures forall t :: !IsAttached(s, t)
  {
    State(map[], [], [])
  }

  /** Makes a host call: records it and waits for its callback. */
  function Issue(s: State, c: Callback): (r: State)
    ensures r.attachedTabs == s.attachedTabs
    ensures r.pending == s.pending + [c]
    ensures r.trace == s.trace + [Issued(CallOf(c))]
  {
    State(s.attachedTabs, s.pending + [c], s.trace + [Issued(CallOf(c))])
  }

  /** The host runs the callback at index `k`: it is no longer pending. */
  function Resolve(s: State, k: nat): (r: State)
    requires k < |s.pending|
    ensures r.attachedTabs == s.attachedTabs && r.trace == s.trace
    ensures multiset(r.pending) == multiset(s.pending) - multiset{s.pending[k]}
    ensures forall c :: c in r.pending ==> c in s.pending
  {
    RemoveAtMultiset(s.pending, k);
    var r := State(s.attachedTabs, RemoveAt(s.pending, k), s.trace);
    assert forall c :: c in r.pending ==> c in multiset(s.pending);
    r
  }

  lemma ResolveKeepsInv(s: State, k: nat)
    requires Inv(s) && k < |s.pending|
    ensures Inv(Resolve(s, k))
  {
  }

  /** `enableOrUpdateTimezone`: nothing for a falsy tab; an attach for a tab
      not yet attached; only the override command for an attached one. The
      registry itself changes only when the attach completes. */
  function Enable(s: State, tabId: int, timezone: string): (r: State)
    requires Inv(s)
    ensures Inv(r)
    ensures r.attachedTabs == s.attachedTabs
    ensures tabId == 0 ==> r == s
    ensures tabId != 0 && !IsAttached(s, tabId) ==>
      r.trace == s.trace + [Issued(Attach(tabId, ProtocolVersion))]
      && r.pending == s.pending + [AttachCallback(tabId, timezone)]
    ensures tabId != 0 && IsAttached(s, tabId) ==>
      r.trace == s.trace + [Issued(SetTimezoneOverride(tabId, timezone))]
      && r.pending == s.pending + [OverrideCallback(tabId, timezone, false)]
  {
    if tabId == 0 then s
    else if !IsAttached(s, tabId) then Issue(s, AttachCallback(tabId, timezone))
    else Issue(s, OverrideCallback(tabId, timezone, false))
  }

  /** `disableTimezone`: a detach only for a real, attached tab; the entry is
      removed only when the detach succeeds. */
  function Disable(s: State, tabId: int): (r: State)
    requires Inv(s)
    ensures Inv(r)
    ensures r.attachedTabs == s.attachedTabs
    ensures tabId == 0 || !IsAttached(s, tabId) ==> r == s
    ensures tabId != 0 && IsAttached(s, tabId) ==>
      r.trace == s.trace + [Issued(Detach(tabId))]
      && r.pending == s.pending + [DetachCallback(tabId, false)]
  {
    if tabId == 0 || !IsAttached(s, tabId) then s
    else Issue(s, DetachCallback(tabId, false))
  }

  /** The attach callback: on error nothing happens and no override is sent;
      on success the tab is registered first and the override sent next. */
  function AttachResult(s: State, k: nat, ok: bool): (r: State)
    requires Inv(s)
    requires k < |s.pending| && s.pending[k].AttachCallback?
    ensures Inv(r)
    ensures var c := s.pending[k];
      if !ok then r == Resolve(s, k)
      else
        && r.attachedTabs == s.attachedTabs[c.tabId := true]
        && r.trace == s.trace + [Issued(SetTimezoneOverride(c.tabId, c.timezone))]
        && r.pending == Resolve(s, k).pending + [OverrideCallback(c.tabId, c.timezone, true)]
  {
    var c := s.pending[k];
    var s' := Resolve(s, k);
    if !ok then s'
    else
      assert c in s.pending;
      Issue(s'.(attachedTabs := s'.attachedTabs[c.tabId := true]), OverrideCallback(c.tabId, c.timezone, true))
  }

  /** The override callback: on error nothing happens (an attached tab stays
      attached); on success the indicator is set active — by the older copy
      only when the override followed a fresh attach. */
  function CommandResult(v: Version, s: State, k: nat, ok: bool): (r: State)
    requires Inv(s)
    requires k < |s.pending| && s.pending[k].OverrideCallback?
    ensures Inv(r)
    ensures r.attachedTabs == s.attachedTabs
    ensures r.pending == Resolve(s, k).pending
    ensures var c := s.pending[k];
      r.trace == s.trace + (if ok && (v == Current || c.afterAttach) then [Indicator(c.tabId, true)] else [])
  {
    var c := s.pending[k];
    var s' := Resolve(s, k);
    if ok && (v == Current || c.afterAttach) then s'.(trace := s'.trace + [Indicator(c.tabId, true)])
    else s'
  }

  /** The detach callback. After a tab close the entry goes whatever the
      outcome; otherwise a failed detach keeps it, and a successful one
      removes this tab's entry only and sets the indicator inactive. */
  function DetachResult(s: State, k: nat, ok: bool): (r: State)
    requires Inv(s)
    requires k < |s.pending| && s.pending[k].DetachCallback?
    ensures Inv(r)
    ensures r.pending == Resolve(s, k).pending
    ensures var c := s.pending[k];
      if c.onClose then r.attachedTabs == s.attachedTabs - {c.tabId} && r.trace == s.trace
      else if !ok then r.attachedTabs == s.attachedTabs && r.trace == s.trace
      else r.attachedTabs == s.attachedTabs - {c.tabId} && r.trace == s.trace + [Indicator(c.tabId, false)]
  {
    var c := s.pending[k];
    var s' := Resolve(s, k);
    if c.onClose then s'.(attachedTabs := s'.attachedTabs - {c.tabId})
    else if !ok then s'
    else State(s'.attachedTabs - {c.tabId}, s'.pending, s'.trace + [Indicator(c.tabId, false)])
  }

  /** `chrome.tabs.onUpdated`: only a `loading` event for an `http` URL looks
      up the stored timezone of the page's origin. `origin` is `None` when the
      URL cannot be parsed; the exception is caught and nothing happens. */
  function TabUpdated(s: State, tabId: int, status: string, url: Option<string>, origin: Option<string>): (r: State)
    requires Inv(s)
    ensures Inv(r)
    ensures r.attachedTabs == s.attachedTabs
    ensures !(status == "loading" && Truthy(url) && StartsWith(url.value, "http")) || origin.None? ==> r == s
    ensures status == "loading" && Truthy(url) && StartsWith(url.value, "http") && origin.Some? ==>
      r.trace == s.trace + [Issued(StorageGet(origin.value))]
      && r.pending == s.pending + [LookupCallback(tabId, origin.value)]
  {
    if status == "loading" && Truthy(url) && StartsWith(url.value, "http") then
      if origin.None? then s
      else Issue(s, LookupCallback(tabId, origin.value))
    else s
  }

  /** What `chrome.storage.sync.get` hands back: an error, or the value stored
      under the origin (absent values are `None`). */
  datatype StorageReply = StorageError | Stored(value: Option<string>)

  /** The storage callback of `onUpdated`: an error changes nothing; a stored
      timezone enables it; no preference disables only an attached tab. */
  function LookupResult(s: State, k: nat, reply: StorageReply): (r: State)
    requires Inv(s)
    requires k < |s.pending| && s.pending[k].LookupCallback?
    ensures Inv(r)
    ensures var c := s.pending[k]; var s' := Resolve(s, k);
      if reply.StorageError? then r == s'
      else if Truthy(reply.value) then r == Enable(s', c.tabId, reply.value.value)
      else if IsAttached(s, c.tabId) then r == Disable(s', c.tabId)
      else r == s'
  {
    var c := s.pending[k];
    var s' := Resolve(s, k);
    if reply.StorageError? then s'
    else if Truthy(reply.value) then Enable(s', c.tabId, reply.value.value)
    else if IsAttached(s', c.tabId) then Disable(s', c.tabId)
    else s'
  }

  /** `chrome.tabs.onRemoved`: an attached tab is detached, and its entry goes
      in the callback whatever the outcome, or at once when `detach` throws. */
  function TabRemoved(s: State, tabId: int, detachThrows: bool): (r: State)
    requires Inv(s)
    ensures Inv(r)
    ensures !IsAttached(s, tabId) ==> r == s
    ensures IsAttached(s, tabId) && detachThrows ==>
      r == s.(attachedTabs := s.attachedTabs - {tabId})
    ensures IsAttached(s, tabId) && !detachThrows ==>
      r.attachedTabs == s.attachedTabs
      && r.trace == s.trace + [Issued(Detach(tabId))]
      && r.pending == s.pending + [DetachCallback(tabId, true)]
  {
    if !IsAttached(s, tabId) then s
    else if detachThrows then s.(attachedTabs := s.attachedTabs - {tabId})
    else Issue(s, DetachCallback(tabId, true))
  }

  /** `chrome.debugger.onDetach`: the host detached a real, attached tab on
      its own; its entry goes and its indicator is set inactive. */
  function ForcedDetach(s: State, tabId: int): (r: State)
    requires Inv(s)
    ensures Inv(r)
    ensures r.pending == s.pending
    ensures tabId == 0 || !IsAttached(s, tabId) ==> r == s
    ensures tabId != 0 && IsAttached(s, tabId) ==>
      r.attachedTabs == s.attachedTabs - {tabId} && r.trace == s.trace + [Indicator(tabId, false)]
  {
    if tabId != 0 && IsAttached(s, tabId) then
      State(s.attachedTabs - {tabId}, s.pending, s.trace + [Indicator(tabId, false)])
    else s
  }

  // ---- The message router ----

  /** A runtime message: its `type`, `tabId` (0 when absent) and `timezone`. */
  datatype Message = Message(kind: string, tabId: int, timezone: Option<string>)

  datatype Response = Response(success: bool, message: Option<string>, error: Option<string>)

  datatype Routed = Routed(state: State, response: Option<Response>)

  /** Whether handling `applyTimezone` reaches a host call: enable for a truthy
      timezone, disable otherwise, both only for a real tab and disable only
      for an attached one. Only a host call can throw. */
  predicate CallsHost(s: State, tabId: int, timezone: Option<string>) {
    tabId != 0 && (Truthy(timezone) || IsAttached(s, tabId))
  }

  /** `chrome.runtime.onMessage`. `thrown` is the message of the exception the
      host call throws synchronously, if it does; the catch answers with
      `success: false` and the state is as before. */
  function Route(v: Version, s: State, msg: Message, thrown: Option<string>): (r: Routed)
    requires Inv(s)
    ensures Inv(r.state)
    ensures msg.kind == "applyTimezone" ==>
      if thrown.Some? && CallsHost(s, msg.tabId, msg.timezone) then
        r.state == s && r.response == Some(Response(false, None, thrown))
      else
        && r.state == (if Truthy(msg.timezone) then Enable(s, msg.tabId, msg.timezone.value) else Disable(s, msg.tabId))
        && r.response == Some(Response(true, Some("Timezone applied successfully"), None))
    ensures msg.kind == "themeDetected" && v == Current ==> r == Routed(s, Some(Response(true, None, None)))
    ensures msg.kind != "applyTimezone" && !(msg.kind == "themeDetected" && v == Current) ==> r == Routed(s, None)
  {
    if msg.kind == "applyTimezone" then
      if thrown.Some? && CallsHost(s, msg.tabId, msg.timezone) then
        Routed(s, Some(Response(false, None, thrown)))
      else
        var s' := if Truthy(msg.timezone) then Enable(s, msg.tabId, msg.timezone.value) else Disable(s, msg.tabId);
        Routed(s', Some(Response(true, Some("Timezone applied successfully"), None)))
    else if msg.kind == "themeDetected" && v == Current then
      Routed(s, Some(Response(true, None, None)))
    else Routed(s, None)
  }
}
