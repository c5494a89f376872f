/** The notification system: a list of entries shown most recent first, each removed by
    its dismiss button or by its expiry timer, and a single toast slot that mirrors the
    latest notification. Timers are explicit events, not wall-clock time. */
module Notifications {
  import opened Js
  import opened Events

  /** The colour family of an entry and of the toast: green, red, yellow, or blue for
      everything else. */
  datatype Tone = Green | Red | Yellow | Blue

  function ToneOf(s: Severity): (t: Tone)
    ensures t == Blue <==> s == Info
    ensures t == Green <==> s == Success
    ensures t == Red <==> s == Error
    ensures t == Yellow <==> s == Warning
  {
    match s
    case Success => Green
    case Error => Red
    case Warning => Yellow
    case Info => Blue
  }

  /** The icon placed before an entry's message. */
  function IconOf(s: Severity): (icon: string)
    ensures icon != ""
  {
    match s
    case Success => "\U{2705}"
    case Error => "\U{274C}"
    case Warning => "\U{26A0}\U{FE0F}"
    case Info => "\U{2139}\U{FE0F}"
  }

  /** Every severity has its own icon. */
  lemma IconsDistinct(a: Severity, b: Severity)
    requires a != b
    ensures IconOf(a) != IconOf(b)
  {
    if |IconOf(a)| == |IconOf(b)| {
      assert IconOf(a)[0] != IconOf(b)[0];
    }
  }

  /** One element of the notification list; `id` stands for the element's identity. */
  datatype Entry = Entry(id: nat, notice: Notice)

  function Ids(s: seq<Entry>): set<nat>
  {
    set e | e in s :: e.id
  }

  predicate DistinctIds(s: seq<Entry>)
  {
    forall i, j :: 0 <= i < j < |s| ==> s[i].id != s[j].id
  }

  /** The list after the element `id` is detached; the other entries keep their order.
      Detaching an element that is not in the list changes nothing. */
  function Without(s: seq<Entry>, id: nat): (r: seq<Entry>)
    ensures |r| <= |s|
    ensures id !in Ids(r)
    ensures forall e :: e in r <==> e in s && e.id != id
    ensures id !in Ids(s) ==> r == s
  {
    if s == [] then []
    else if s[0].id == id then Without(s[1..], id)
    else [s[0]] + Without(s[1..], id)
  }

  /** With distinct identities, detaching the element at index `k` removes exactly that
      position. */
  lemma {:induction false} WithoutAt(s: seq<Entry>, k: nat)
    requires DistinctIds(s) && k < |s|
    ensures Without(s, s[k].id) == s[..k] + s[k + 1..]
  {
    var id := s[k].id;
    var t := s[1..];
    if k == 0 {
      assert id !in Ids(t);
      assert Without(s, id) == Without(t, id);
    } else {
      assert DistinctIds(t);
      assert t[k - 1] == s[k];
      WithoutAt(t, k - 1);
      assert s[0].id != id;
      assert Without(s, id) == [s[0]] + Without(t, id);
      assert t[..k - 1] == s[1..k];
      assert t[k..] == s[k + 1..];
      assert s[..k] == [s[0]] + s[1..k];
    }
  }

  /** Removing an element never removes more than one entry: the list shrinks by one
      when the element is attached, and by nothing when it is not. */
  lemma {:induction false} WithoutCount(s: seq<Entry>, id: nat)
    requires DistinctIds(s)
    ensures |Without(s, id)| == if id in Ids(s) then |s| - 1 else |s|
  {
    if s != [] {
      assert DistinctIds(s[1..]);
      if s[0].id == id {
        assert id !in Ids(s[1..]);
      } else {
        WithoutCount(s[1..], id);
        assert id in Ids(s) <==> id in Ids(s[1..]);
      }
    }
  }

  /** Detaching keeps identities distinct. */
  lemma {:induction false} WithoutDistinct(s: seq<Entry>, id: nat)
    requires DistinctIds(s)
    ensures DistinctIds(Without(s, id))
  {
    if s != [] {
      assert DistinctIds(s[1..]);
      WithoutDistinct(s[1..], id);
      if s[0].id != id {
        var r := Without(s[1..], id);
        assert s[0].id !in Ids(s[1..]);
        forall j | 0 <= j < |r| ensures s[0].id != r[j].id {
          assert r[j] in s[1..];
        }
      }
    }
  }

  /** Publishing an entry and then removing it gives back the list it was published into. */
  lemma PublishThenRemove(s: seq<Entry>, e: Entry)
    requires e.id !in Ids(s)
    ensures Without([e] + s, e.id) == s
  {
    assert ([e] + s)[1..] == s;
  }

  class NotificationCenter {
    /** Whether the page has a notification list and a toast; without one, its part of
        publishing does nothing. */
    const hasList: bool
    const hasToast: bool

    /** The visible list, most recent first. */
    var entries: seq<Entry>
    /** Elements whose ten-second removal timer has not fired yet. */
    var expiring: set<nat>
    /** The identity the next published element gets. */
    var nextId: nat

    /** The message and tone last written into the toast, and whether it is showing. */
    var toast: Option<Notice>
    var toastVisible: bool
    /** Five-second hide timers that have not fired yet. */
    var toastTimers: nat

    /** Every notice ever published, in order. */
    ghost var log: seq<Notice>

    ghost predicate Valid()
      reads this
    {
      && DistinctIds(entries)
      && (forall e :: e in entries ==> e.id < nextId)
      && (forall id :: id in expiring ==> id < nextId)
      && Ids(entries) <= expiring
      && (!hasList ==> entries == [] && expiring == {})
      && (!hasToast ==> toast == None && !toastVisible && toastTimers == 0)
      && (toastVisible ==> toast.Some? && toastTimers > 0)
    }

    constructor (hasList: bool, hasToast: bool)
      ensures Valid()
      ensures this.hasList == hasList && this.hasToast == hasToast
      ensures entries == [] && expiring == {} && toast == None && !toastVisible && toastTimers == 0
      ensures log == []
    {
      this.hasList, this.hasToast := hasList, hasToast;
      entries, expiring, nextId := [], {}, 0;
      toast, toastVisible, toastTimers := None, false, 0;
      log := [];
    }

    /** `showNotification`: puts a new element at the head of the list and schedules its
        removal, then overwrites the toast and schedules its hiding. */
    method Publish(n: Notice) returns (id: nat)
      requires Valid()
      modifies this
      ensures Valid()
      ensures id !in old(Ids(entries)) && id !in old(expiring)
      ensures entries == if hasList then [Entry(id, n)] + old(entries) else old(entries)
      ensures expiring == if hasList then old(expiring) + {id} else old(expiring)
      ensures hasToast ==> toast == Some(n) && toastVisible && toastTimers == old(toastTimers) + 1
      ensures !hasToast ==> toast == old(toast) && toastVisible == old(toastVisible) && toastTimers == old(toastTimers)
      ensures log == old(log) + [n]
    {
      id := nextId;
      nextId := nextId + 1;
      if hasList {
        entries := [Entry(id, n)] + entries;
        expiring := expiring + {id};
      }
      if hasToast {
        toast := Some(n);
        toastVisible := true;
        toastTimers := toastTimers + 1;
      }
      log := log + [n];
    }

    /** The dismiss button of an attached element: detaches it at once. Its removal timer
        stays scheduled and will find nothing to do. */
    method Dismiss(id: nat)
      requires Valid() && id in Ids(entries)
      modifies this`entries
      ensures Valid()
      ensures entries == Without(old(entries), id)
      ensures |entries| == |old(entries)| - 1
    {
      WithoutDistinct(entries, id);
      WithoutCount(entries, id);
      entries := Without(entries, id);
    }

    /** The removal timer of element `id` fires: the element is detached only if it is
        still attached, so after a dismissal this changes nothing. */
    method Expire(id: nat)
      requires Valid() && id in expiring
      modifies this`entries, this`expiring
      ensures Valid()
      ensures entries == Without(old(entries), id)
      ensures old(id !in Ids(entries)) ==> entries == old(entries)
      ensures expiring == old(expiring) - {id}
    {
      if id in Ids(entries) {
        WithoutDistinct(entries, id);
        entries := Without(entries, id);
      }
      expiring := expiring - {id};
    }

    /** A toast hide timer fires: the toast is hidden, whichever publish scheduled the
        timer, so an earlier timer hides a toast written later. */
    method HideToast()
      requires Valid() && toastTimers > 0
      modifies this`toastVisible, this`toastTimers
      ensures Valid()
      ensures !toastVisible && toastTimers == old(toastTimers) - 1
    {
      toastVisible := false;
      toastTimers := toastTimers - 1;
    }
  }

  /** Publishing, dismissing the new element, and then letting its removal timer fire
      leave the list as it was before the publish: the late timer removes nothing. */
  method DismissThenExpire(c: NotificationCenter, n: Notice)
    requires c.Valid() && c.hasList
    modifies c
    ensures c.Valid()
    ensures c.entries == old(c.entries)
  {
    var id := c.Publish(n);
    c.Dismiss(id);
    assert c.entries == old(c.entries) by { PublishThenRemove(old(c.entries), Entry(id, n)); }
    c.Expire(id);
  }

  /** Two publishes: the toast shows the later one, and the first hide timer to fire hides
      it even though the later one scheduled its own timer. */
  method ToastLastWriteWins(c: NotificationCenter, a: Notice, b: Notice)
    requires c.Valid() && c.hasToast
    modifies c
    ensures c.Valid()
    ensures c.toast == Some(b) && !c.toastVisible && c.toastTimers == old(c.toastTimers) + 1
  {
    var _ := c.Publish(a);
    var _ := c.Publish(b);
    c.HideToast();
  }
}
