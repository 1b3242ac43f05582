/** Which events a subscriber of the event stream gets (`EventsSSE`): the set of VMs it was allowed to
  see is kept up to date event by event, because a removal arrives when access can no longer be
  checked.
*/
module EventVisibility {
  import opened Wrappers

  /** An event; `access` is what the access check says of its VM at that moment. */
  datatype Event = Event(vm: string, removed: bool, access: bool)

  // ---- what the history says ----

  predicate About(e: Event, vm: string) {
    vm != "" && e.vm == vm
  }

  /** The event at `i` is the last one about `vm`. */
  ghost predicate LastAbout(events: seq<Event>, vm: string, i: nat) {
    && i < |events| && About(events[i], vm)
    && (forall j | i < j < |events| :: !About(events[j], vm))
  }

  ghost predicate NoneAbout(events: seq<Event>, vm: string) {
    forall j | 0 <= j < |events| :: !About(events[j], vm)
  }

  /** In view: the last event about the VM was a state event under access, or there was none and the
      VM was visible to begin with. */
  ghost predicate InView(initial: set<string>, events: seq<Event>, vm: string) {
    || (NoneAbout(events, vm) && vm in initial)
    || (exists i: nat :: LastAbout(events, vm, i) && !events[i].removed && events[i].access)
  }

  /** A state event needs access now; a removal needs access now or the VM in view. */
  ghost predicate Due(initial: set<string>, past: seq<Event>, e: Event) {
    e.vm == "" || e.access || (e.removed && InView(initial, past, e.vm))
  }

  /** Events about no VM go to everybody; a state event goes by the access there is now, whatever was in
      view before. */
  lemma DueByAccess(initial: set<string>, past: seq<Event>, e: Event)
    ensures e.vm == "" ==> Due(initial, past, e)
    ensures e.vm != "" && (!e.removed || e.access) ==> (Due(initial, past, e) <==> e.access)
    ensures e.vm != "" && e.removed && !e.access && past == [] ==> (Due(initial, past, e) <==> e.vm in initial)
  {
  }

  lemma LastAboutSame(past: seq<Event>, e: Event, vm: string, i: nat)
    requires !About(e, vm)
    ensures LastAbout(past + [e], vm, i) <==> LastAbout(past, vm, i)
  {
    var now := past + [e];
    assert now[|past|] == e && forall j | 0 <= j < |past| :: now[j] == past[j];
    if i < |past| {
      forall j | i < j < |past| ensures About(now[j], vm) <==> About(past[j], vm) {}
    }
  }

  lemma InViewAfter(initial: set<string>, past: seq<Event>, e: Event, vm: string)
    ensures InView(initial, past + [e], vm) <==> if About(e, vm) then !e.removed && e.access else InView(initial, past, vm)
  {
    var now := past + [e];
    if About(e, vm) {
      assert now[|past|] == e && LastAbout(now, vm, |past|);
      forall i: nat | LastAbout(now, vm, i) ensures i == |past| {}
    } else {
      if NoneAbout(past, vm) {
        assert NoneAbout(now, vm);
      }
      forall i: nat ensures LastAbout(now, vm, i) <==> LastAbout(past, vm, i) {
        LastAboutSame(past, e, vm, i);
      }
      if NoneAbout(now, vm) {
        forall j | 0 <= j < |past| ensures !About(past[j], vm) { assert past[j] == now[j]; }
      }
    }
  }

  // ---- the loop ----

  /** The VMs a caller starts with: none for an admin, who passes every access check anyway. */
  method InitialVisibleVMs(admin: bool, vms: Option<seq<string>>, allowed: set<string>) returns (seen: set<string>)
    ensures forall vm :: vm in seen <==> !admin && vms.Some? && vm in vms.value && vm in allowed
  {
    seen := {};
    if admin || vms.None? { return; }
    for i := 0 to |vms.value|
      invariant forall vm :: vm in seen <==> vm in vms.value[..i] && vm in allowed
    {
      assert vms.value[..i + 1] == vms.value[..i] + [vms.value[i]];
      if vms.value[i] in allowed { seen := seen + {vms.value[i]}; }
    }
    assert vms.value[..|vms.value|] == vms.value;
  }

  class Subscriber {
    const initial: set<string>
    var seen: set<string>
    var delivered: seq<Event>
    ghost var past: seq<Event>

    /** The set is exactly what the history so far puts in view, and exactly the due events went out. */
    ghost predicate Valid()
      reads this
    {
      && (forall vm :: vm in seen <==> InView(initial, past, vm))
      && delivered == DueOnes(initial, past)
    }

    constructor (initial: set<string>)
      ensures Valid() && this.initial == initial && past == [] && delivered == []
    {
      this.initial, this.seen, this.delivered, this.past := initial, initial, [], [];
    }

    method Receive(e: Event)
      requires Valid()
      modifies this
      ensures Valid() && past == old(past) + [e]
      ensures delivered == old(delivered) + if Due(initial, old(past), e) then [e] else []
    {
      forall vm ensures InView(initial, past + [e], vm) <==> if About(e, vm) then !e.removed && e.access else InView(initial, past, vm) {
        InViewAfter(initial, past, e, vm);
      }
      assert (past + [e])[..|past|] == past;
      past := past + [e];
      if e.vm != "" {
        if e.removed && e.vm in seen {
          seen := seen - {e.vm};
        } else if !e.access {
          if !e.removed { seen := seen - {e.vm}; }
          return;
        } else if !e.removed {
          seen := seen + {e.vm};
        }
      }
      delivered := delivered + [e];
    }

    /** A whole connection. */
    method Stream(events: seq<Event>)
      requires Valid() && past == []
      modifies this
      ensures delivered == DueOnes(initial, events)
      ensures forall vm :: vm in seen <==> InView(initial, events, vm)
    {
      for i := 0 to |events|
        invariant Valid() && past == events[..i]
      {
        assert events[..i + 1] == events[..i] + [events[i]];
        Receive(events[i]);
      }
      assert events[..|events|] == events;
    }
  }

  /** The events due to a subscriber, each judged by the history before it. */
  ghost function DueOnes(initial: set<string>, events: seq<Event>): seq<Event> {
    if events == [] then []
    else
      var past, e := events[..|events| - 1], events[|events| - 1];
      DueOnes(initial, past) + if Due(initial, past, e) then [e] else []
  }

  // ---- what that protects ----

  /** No leak: once a state event about a VM has come without access, or its removal has come, no
      removal of it goes out any more unless access is back, at the time or in a state event since. */
  lemma ForgottenStaysForgotten(initial: set<string>, past: seq<Event>, e: Event, i: nat)
    requires i < |past| && About(past[i], e.vm) && (past[i].removed || !past[i].access)
    requires e.removed && !e.access && forall j | i < j < |past| && About(past[j], e.vm) :: past[j].removed || !past[j].access
    ensures !Due(initial, past, e)
  {
    forall k: nat | LastAbout(past, e.vm, k) ensures past[k].removed || !past[k].access {
      assert i <= k;
    }
  }

  /** A removal of a VM whose last state event went out under access goes out, whatever access says by then. */
  lemma SeenGetsItsRemoval(initial: set<string>, past: seq<Event>, e: Event, i: nat)
    requires e.removed && LastAbout(past, e.vm, i) && !past[i].removed
    ensures Due(initial, past, e) <==> past[i].access || e.access
  {
    forall k: nat | LastAbout(past, e.vm, k) ensures k == i {}
  }
}
