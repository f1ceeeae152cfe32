/** The background service worker's session registry as the object the
    source mutates: the module-level `attachedTabs` map, together with the
    callbacks the host still owes and the record of what the worker did.
    Each method is one handler or one callback body of js/background.js
    (`version == Current`) or background.js (`version == Legacy`), and is
    proved to perform the transition of the same name in `Sessions`. */
module Background {
  import opened Sequences
  import opened Text
  import opened Sessions

  class TabSessions {
    const version: Version
    var attachedTabs: map<int, bool>
    var pending: seq<Callback>
    var trace: seq<Effect>

    function Snapshot(): State
      reads this
    {
      State(attachedTabs, pending, trace)
    }

    predicate Valid()
      reads this
    {
      Inv(Snapshot())
    }

    /** `let attachedTabs = {}`. */
    constructor(version: Version)
      ensures Valid() && this.version == version
      ensures attachedTabs == map[] && pending == [] && trace == []
    {
      this.version := version;
      attachedTabs := map[];
      pending := [];
      trace := [];
    }

    /** Issues a host call and keeps its callback. */
    method Call(c: Callback)
      modifies this
      ensures Snapshot() == Issue(old(Snapshot()), c)
    {
      trace := trace + [Issued(CallOf(c))];
      pending := pending + [c];
    }

    /** `enableOrUpdateTimezone(tabId, timezone)`. */
    method EnableOrUpdateTimezone(tabId: int, timezone: string)
      requires Valid()
      modifies this
      ensures Snapshot() == Enable(old(Snapshot()), tabId, timezone)
      ensures Valid()
    {
      if tabId == 0 {
        return;
      }
      var isAttached := tabId in attachedTabs && attachedTabs[tabId];
      if !isAttached {
        Call(AttachCallback(tabId, timezone));
      } else {
        Call(OverrideCallback(tabId, timezone, false));
      }
    }

    /** `disableTimezone(tabId)`. */
    method DisableTimezone(tabId: int)
      requires Valid()
      modifies this
      ensures Snapshot() == Disable(old(Snapshot()), tabId)
      ensures Valid()
    {
      if tabId == 0 || !(tabId in attachedTabs && attachedTabs[tabId]) {
        return;
      }
      Call(DetachCallback(tabId, false));
    }

    /** The host runs the callback at index `k`. */
    method Take(k: nat) returns (c: Callback)
      requires Valid() && k < |pending|
      modifies this
      ensures c == old(pending[k])
      ensures Snapshot() == Resolve(old(Snapshot()), k)
      ensures Valid()
    {
      c := pending[k];
      pending := RemoveAt(pending, k);
      ResolveKeepsInv(old(Snapshot()), k);
    }

    /** The callback of `chrome.debugger.attach`; `ok` is false when the host
        reports `chrome.runtime.lastError`. */
    method OnAttachResult(k: nat, ok: bool)
      requires Valid()
      requires k < |pending| && pending[k].AttachCallback?
      modifies this
      ensures Snapshot() == AttachResult(old(Snapshot()), k, ok)
      ensures Valid()
    {
      var c := Take(k);
      if !ok {
        return;
      }
      attachedTabs := attachedTabs[c.tabId := true];
      Call(OverrideCallback(c.tabId, c.timezone, true));
    }

    /** The callback of `sendCommand("Emulation.setTimezoneOverride")`. */
    method OnCommandResult(k: nat, ok: bool)
      requires Valid()
      requires k < |pending| && pending[k].OverrideCallback?
      modifies this
      ensures Snapshot() == CommandResult(version, old(Snapshot()), k, ok)
      ensures Valid()
    {
      var c := Take(k);
      if !ok {
        return;
      }
      if version == Current || c.afterAttach {
        trace := trace + [Indicator(c.tabId, true)];
      }
    }

    /** The callback of `chrome.debugger.detach`, from `disableTimezone` or
        from the tab-close handler. */
    method OnDetachResult(k: nat, ok: bool)
      requires Valid()
      requires k < |pending| && pending[k].DetachCallback?
      modifies this
      ensures Snapshot() == DetachResult(old(Snapshot()), k, ok)
      ensures Valid()
    {
      var c := Take(k);
      if c.onClose {
        attachedTabs := attachedTabs - {c.tabId};
        return;
      }
      if !ok {
        return;
      }
      attachedTabs := attachedTabs - {c.tabId};
      trace := trace + [Indicator(c.tabId, false)];
    }

    /** The `chrome.tabs.onUpdated` listener. */
    method OnUpdated(tabId: int, status: string, url: Option<string>, origin: Option<string>)
      requires Valid()
      modifies this
      ensures Snapshot() == TabUpdated(old(Snapshot()), tabId, status, url, origin)
      ensures Valid()
    {
      if status == "loading" && Truthy(url) && StartsWith(url.value, "http") {
        if origin.Some? {
          Call(LookupCallback(tabId, origin.value));
        }
      }
    }

    /** The callback of the storage lookup made on navigation. */
    method OnStorageResult(k: nat, reply: StorageReply)
      requires Valid()
      requires k < |pending| && pending[k].LookupCallback?
      modifies this
      ensures Snapshot() == LookupResult(old(Snapshot()), k, reply)
      ensures Valid()
    {
      var c := Take(k);
      if reply.StorageError? {
        return;
      }
      if Truthy(reply.value) {
        EnableOrUpdateTimezone(c.tabId, reply.value.value);
      } else if c.tabId in attachedTabs && attachedTabs[c.tabId] {
        DisableTimezone(c.tabId);
      }
    }

    /** The `chrome.tabs.onRemoved` listener; `detachThrows` says whether the
        detach call throws synchronously. */
    method OnRemoved(tabId: int, detachThrows: bool)
      requires Valid()
      modifies this
      ensures Snapshot() == TabRemoved(old(Snapshot()), tabId, detachThrows)
      ensures Valid()
    {
      if tabId in attachedTabs && attachedTabs[tabId] {
        if detachThrows {
          attachedTabs := attachedTabs - {tabId};
        } else {
          Call(DetachCallback(tabId, true));
        }
      }
    }

    /** The `chrome.debugger.onDetach` listener. */
    method OnDetach(tabId: int)
      requires Valid()
      modifies this
      ensures Snapshot() == ForcedDetach(old(Snapshot()), tabId)
      ensures Valid()
    {
      if tabId != 0 && tabId in attachedTabs && attachedTabs[tabId] {
        attachedTabs := attachedTabs - {tabId};
        trace := trace + [Indicator(tabId, false)];
      }
    }

    /** The `chrome.runtime.onMessage` listener; `response` is what it passes
        to `sendResponse`, if anything. */
    method OnMessage(msg: Message, thrown: Option<string>) returns (response: Option<Response>)
      requires Valid()
      modifies this
      ensures Routed(Snapshot(), response) == Route(version, old(Snapshot()), msg, thrown)
      ensures Valid()
    {
      if msg.kind == "applyTimezone" {
        if thrown.Some? && CallsHost(Snapshot(), msg.tabId, msg.timezone) {
          response := Some(Response(false, None, thrown));
          return;
        }
        if Truthy(msg.timezone) {
          EnableOrUpdateTimezone(msg.tabId, msg.timezone.value);
        } else {
          DisableTimezone(msg.tabId);
        }
        response := Some(Response(true, Some("Timezone applied successfully"), None));
      } else if msg.kind == "themeDetected" && version == Current {
        response := Some(Response(true, None, None));
      } else {
        response := None;
      }
    }
  }
}
