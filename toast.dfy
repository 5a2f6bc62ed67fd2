/** The toast notification manager: a list of toasts, an id counter and a list
    of subscribed listeners. Timers are not modelled; instead `Add` returns the
    delay after which it schedules the toast's removal, if it schedules one.
    Listeners are identified by a number, and notifying them has no effect on
    the manager's state. */
module Toast {
  import opened Wrappers
  import Seqs

  datatype ToastKind = Success | Error | Warning | Info | Loading

  /** The object handed to `add`: the keys the manager and its helpers use. */
  datatype ToastInput = ToastInput(kind: Option<ToastKind>, message: string, duration: Option<int>)

  /** The `options` object of `success`/`error`/...: a key that is present
      overrides the helper's own value. */
  datatype ToastOptions = ToastOptions(kind: Option<ToastKind>, message: Option<string>, duration: Option<int>)

  const NoOptions := ToastOptions(None, None, None)

  datatype Toast = Toast(id: nat, kind: Option<ToastKind>, message: string, duration: Option<int>, createdAt: nat)

  const DefaultDuration := 5000
  const ErrorDuration := 7000

  /** The delay of the automatic removal `add` schedules: `duration || 5000`,
      and nothing when that is not positive. */
  function AutoRemoveDelay(duration: Option<int>): (r: Option<nat>)
    ensures r.Some? ==> r.value > 0
    ensures duration.None? || duration == Some(0) ==> r == Some(DefaultDuration)
    ensures duration.Some? && duration.value > 0 ==> r == Some(duration.value)
    ensures duration.Some? && duration.value < 0 ==> r.None?
  {
    var d := if duration.None? || duration.value == 0 then DefaultDuration else duration.value;
    if d > 0 then Some(d) else None
  }

  /** The automatic removal is skipped only for a negative duration. */
  lemma AutoRemoveSkippedIffNegative(duration: Option<int>)
    ensures AutoRemoveDelay(duration).None? <==> duration.Some? && duration.value < 0
  {
  }

  /** `{ type, message, [duration,] ...options }`. */
  function WithOptions(kind: ToastKind, message: string, duration: Option<int>, options: ToastOptions): (t: ToastInput)
    ensures t.kind == Some(options.kind.GetOr(kind))
    ensures t.message == options.message.GetOr(message)
    ensures options.duration.Some? ==> t.duration == options.duration
    ensures options.duration.None? ==> t.duration == duration
  {
    ToastInput(
      Some(options.kind.GetOr(kind)),
      options.message.GetOr(message),
      if options.duration.Some? then options.duration else duration)
  }

  /** Without options the helpers show their own kind and message. */
  lemma NoOptionsKeepsDefaults(kind: ToastKind, message: string, duration: Option<int>)
    ensures WithOptions(kind, message, duration, NoOptions) == ToastInput(Some(kind), message, duration)
  {
  }

  /** Ids strictly increase along the list. */
  ghost predicate IdsIncreasing(ts: seq<Toast>) {
    forall i, j :: 0 <= i < j < |ts| ==> ts[i].id < ts[j].id
  }

  /** The predicate `t => t.id !== id`. */
  function NotId(id: nat): Toast -> bool {
    (t: Toast) => t.id != id
  }

  function RemoveById(ts: seq<Toast>, id: nat): (r: seq<Toast>)
    ensures forall j :: 0 <= j < |r| ==> r[j].id != id && r[j] in ts
    ensures forall j :: 0 <= j < |ts| && ts[j].id != id ==> ts[j] in r
  {
    Seqs.Filter(ts, NotId(id))
  }

  /** Removing an id that is not shown leaves the list as it was. */
  lemma RemoveAbsentId(ts: seq<Toast>, id: nat)
    requires forall j :: 0 <= j < |ts| ==> ts[j].id != id
    ensures RemoveById(ts, id) == ts
  {
    Seqs.FilterAll(ts, NotId(id));
  }

  /** Removing keeps the remaining toasts in their order. */
  lemma RemoveKeepsOrder(ts: seq<Toast>, id: nat)
    ensures Seqs.IsSubsequence(RemoveById(ts, id), ts)
  {
    Seqs.FilterIsSubsequence(ts, NotId(id));
  }

  /** Removing twice is removing once. */
  lemma RemoveIdempotent(ts: seq<Toast>, id: nat)
    ensures RemoveById(RemoveById(ts, id), id) == RemoveById(ts, id)
  {
    Seqs.FilterIdempotent(ts, NotId(id));
  }

  lemma ConsIdsIncreasing(t: Toast, rest: seq<Toast>)
    requires IdsIncreasing(rest)
    requires forall j :: 0 <= j < |rest| ==> t.id < rest[j].id
    ensures IdsIncreasing([t] + rest)
  {
    var r := [t] + rest;
    forall i, j | 0 <= i < j < |r| ensures r[i].id < r[j].id {
      assert r[j] == rest[j - 1];
      if i > 0 {
        assert r[i] == rest[i - 1];
      }
    }
  }

  lemma TailIdsIncreasing(ts: seq<Toast>)
    requires ts != [] && IdsIncreasing(ts)
    ensures IdsIncreasing(ts[1..])
    ensures forall j :: 0 <= j < |ts[1..]| ==> ts[0].id < ts[1..][j].id
  {
    var tail := ts[1..];
    forall i, j | 0 <= i < j < |tail| ensures tail[i].id < tail[j].id {
      assert tail[i] == ts[i + 1] && tail[j] == ts[j + 1];
    }
  }

  lemma {:induction false} FilterKeepsIdsIncreasing(ts: seq<Toast>, p: Toast -> bool)
    requires IdsIncreasing(ts)
    ensures IdsIncreasing(Seqs.Filter(ts, p))
  {
    if ts != [] {
      var tail := ts[1..];
      TailIdsIncreasing(ts);
      FilterKeepsIdsIncreasing(tail, p);
      var rest := Seqs.Filter(tail, p);
      if p(ts[0]) {
        forall j | 0 <= j < |rest| ensures ts[0].id < rest[j].id {
          var k :| 0 <= k < |tail| && tail[k] == rest[j];
        }
        ConsIdsIncreasing(ts[0], rest);
        assert Seqs.Filter(ts, p) == [ts[0]] + rest;
      } else {
        assert Seqs.Filter(ts, p) == rest;
      }
    }
  }

  lemma RemoveKeepsIdsIncreasing(ts: seq<Toast>, id: nat)
    requires IdsIncreasing(ts)
    ensures IdsIncreasing(RemoveById(ts, id))
  {
    FilterKeepsIdsIncreasing(ts, NotId(id));
  }

  function NotListener(listener: nat): nat -> bool {
    (l: nat) => l != listener
  }

  /** `listeners.filter(l => l !== listener)`. */
  function RemoveListener(ls: seq<nat>, listener: nat): (r: seq<nat>)
    ensures listener !in r
    ensures forall l :: l in ls && l != listener ==> l in r
    ensures forall l :: l in r ==> l in ls
    ensures forall l :: multiset(r)[l] == if l == listener then 0 else multiset(ls)[l]
  {
    Seqs.FilterMultiset(ls, NotListener(listener));
    Seqs.Filter(ls, NotListener(listener))
  }

  /** Unsubscribing right after subscribing a new listener restores the list. */
  lemma {:induction false} UnsubscribeUndoesSubscribe(ls: seq<nat>, listener: nat)
    requires listener !in ls
    ensures RemoveListener(ls + [listener], listener) == ls
    decreases |ls|
  {
    if ls == [] {
      assert Seqs.Filter([listener], NotListener(listener)) == [];
    } else {
      assert (ls + [listener])[1..] == ls[1..] + [listener];
      UnsubscribeUndoesSubscribe(ls[1..], listener);
      assert ls == [ls[0]] + ls[1..];
    }
  }

  class ToastManager {
    var listeners: seq<nat>
    var toasts: seq<Toast>
    var nextId: nat

    /** Ids are issued from the counter, so every shown id is below it and the
        list is in the order the toasts were added. */
    ghost predicate Valid()
      reads this
    {
      nextId >= 1 && IdsIncreasing(toasts) && forall j :: 0 <= j < |toasts| ==> toasts[j].id < nextId
    }

    constructor()
      ensures Valid()
      ensures listeners == [] && toasts == [] && nextId == 1
    {
      listeners := [];
      toasts := [];
      nextId := 1;
    }

    method Subscribe(listener: nat)
      modifies this
      ensures listeners == old(listeners) + [listener]
      ensures toasts == old(toasts) && nextId == old(nextId)
    {
      listeners := listeners + [listener];
    }

    /** The function `subscribe` returns. */
    method Unsubscribe(listener: nat)
      modifies this
      ensures listeners == RemoveListener(old(listeners), listener)
      ensures toasts == old(toasts) && nextId == old(nextId)
    {
      listeners := RemoveListener(listeners, listener);
    }

    method Add(toast: ToastInput, now: nat) returns (id: nat, removal: Option<nat>)
      requires Valid()
      modifies this
      ensures Valid()
      ensures id == old(nextId) && nextId == old(nextId) + 1
      ensures toasts == old(toasts) + [Toast(id, toast.kind, toast.message, toast.duration, now)]
      ensures forall j :: 0 <= j < |old(toasts)| ==> old(toasts)[j].id != id
      ensures removal == AutoRemoveDelay(toast.duration)
      ensures listeners == old(listeners)
    {
      id := nextId;
      nextId := nextId + 1;
      toasts := toasts + [Toast(id, toast.kind, toast.message, toast.duration, now)];
      removal := AutoRemoveDelay(toast.duration);
    }

    method Remove(id: nat)
      requires Valid()
      modifies this
      ensures Valid()
      ensures toasts == RemoveById(old(toasts), id)
      ensures nextId == old(nextId) && listeners == old(listeners)
    {
      RemoveKeepsIdsIncreasing(toasts, id);
      toasts := RemoveById(toasts, id);
    }

    method ShowSuccess(message: string, options: ToastOptions, now: nat) returns (id: nat, removal: Option<nat>)
      requires Valid()
      modifies this
      ensures Valid()
      ensures id == old(nextId) && nextId == old(nextId) + 1
      ensures toasts == old(toasts) + [Toast(id, Some(options.kind.GetOr(Success)), options.message.GetOr(message),
                                             options.duration, now)]
      ensures removal == AutoRemoveDelay(options.duration)
      ensures listeners == old(listeners)
    {
      id, removal := Add(WithOptions(Success, message, None, options), now);
    }

    /** Errors stay longer: 7000 ms unless the options say otherwise. */
    method ShowError(message: string, options: ToastOptions, now: nat) returns (id: nat, removal: Option<nat>)
      requires Valid()
      modifies this
      ensures Valid()
      ensures id == old(nextId) && nextId == old(nextId) + 1
      ensures toasts == old(toasts) + [Toast(id, Some(options.kind.GetOr(Error)), options.message.GetOr(message),
                                             Some(options.duration.GetOr(ErrorDuration)), now)]
      ensures options.duration.None? ==> removal == Some(ErrorDuration)
      ensures options.duration.Some? ==> removal == AutoRemoveDelay(options.duration)
      ensures listeners == old(listeners)
    {
      id, removal := Add(WithOptions(Error, message, Some(ErrorDuration), options), now);
    }

    method ShowWarning(message: string, options: ToastOptions, now: nat) returns (id: nat, removal: Option<nat>)
      requires Valid()
      modifies this
      ensures Valid()
      ensures id == old(nextId) && nextId == old(nextId) + 1
      ensures toasts == old(toasts) + [Toast(id, Some(options.kind.GetOr(Warning)), options.message.GetOr(message),
                                             options.duration, now)]
      ensures removal == AutoRemoveDelay(options.duration)
      ensures listeners == old(listeners)
    {
      id, removal := Add(WithOptions(Warning, message, None, options), now);
    }

    method ShowInfo(message: string, options: ToastOptions, now: nat) returns (id: nat, removal: Option<nat>)
      requires Valid()
      modifies this
      ensures Valid()
      ensures id == old(nextId) && nextId == old(nextId) + 1
      ensures toasts == old(toasts) + [Toast(id, Some(options.kind.GetOr(Info)), options.message.GetOr(message),
                                             options.duration, now)]
      ensures removal == AutoRemoveDelay(options.duration)
      ensures listeners == old(listeners)
    {
      id, removal := Add(WithOptions(Info, message, None, options), now);
    }

    /** The synchronous start of `promise`: a loading toast with duration 0,
        which `add` reads as the default and so still removes after 5000 ms. */
    method StartPromise(loading: Option<string>, now: nat) returns (id: nat, removal: Option<nat>)
      requires Valid()
      modifies this
      ensures Valid()
      ensures id == old(nextId) && nextId == old(nextId) + 1
      ensures loading.None? || loading == Some("") ==>
                toasts == old(toasts) + [Toast(id, Some(Loading), "Loading...", Some(0), now)]
      ensures loading.Some? && loading.value != "" ==>
                toasts == old(toasts) + [Toast(id, Some(Loading), loading.value, Some(0), now)]
      ensures removal == Some(DefaultDuration)
      ensures listeners == old(listeners)
    {
      var message := if loading.None? || loading.value == "" then "Loading..." else loading.value;
      id, removal := Add(ToastInput(Some(Loading), message, Some(0)), now);
    }
  }

  /** Add then remove of the new id leaves the shown list as it was. */
  lemma RemoveUndoesAdd(ts: seq<Toast>, t: Toast)
    requires forall j :: 0 <= j < |ts| ==> ts[j].id != t.id
    ensures RemoveById(ts + [t], t.id) == ts
  {
    FilterAppendLast(ts, t, NotId(t.id));
    RemoveAbsentId(ts, t.id);
  }

  lemma {:induction false} FilterAppendLast(ts: seq<Toast>, t: Toast, p: Toast -> bool)
    requires !p(t)
    ensures Seqs.Filter(ts + [t], p) == Seqs.Filter(ts, p)
    decreases |ts|
  {
    if ts == [] {
      assert Seqs.Filter([t], p) == [];
    } else {
      assert (ts + [t])[1..] == ts[1..] + [t];
      FilterAppendLast(ts[1..], t, p);
    }
  }
}
