/** Change-of-value subscriptions (`bacpypes/service/cov.py`): for each local object with
  * subscribers a detection keeps the list of subscriptions; SubscribeCOV requests create,
  * renew and cancel them, and a change sends one notification per subscription
  * (ASHRAE 135 clauses 13.1 and 13.14). */
module Cov {
  import opened Wrappers
  import opened Addresses
  import opened App
  import opened Seqs

  /** The object types of `criteria_type_map`: those for which a detection can be made. */
  const CriteriaTypes: set<string> := {
    "accessPoint", "analogInput", "analogOutput", "analogValue", "largeAnalogValue",
    "integerValue", "positiveIntegerValue", "lightingOutput", "binaryInput", "binaryOutput",
    "binaryValue", "lifeSafetyPoint", "lifeSafetyZone", "multiStateInput", "multiStateOutput",
    "multiStateValue", "octetString", "characterString", "timeValue", "dateTimeValue",
    "dateValue", "timePatternValue", "datePatternValue", "dateTimePatternValue",
    "credentialDataInput", "loadControl", "pulseConverter"}

  /** A timer handle of the event loop: the time it fires at, and whether it was cancelled. */
  datatype Handle = Handle(when: int, cancelled: bool)

  /** A subscription: the object it watches, the subscriber's address and process, the
    * monitored identifier, the two request flags, and the expiry timer (`timeout_handle`). */
  datatype Subscription = Subscription(
    objRef: LocalObject,
    clientAddr: Address,
    procId: int,
    objId: ObjectId,
    confirmed: Option<bool>,
    lifetime: Option<int>,
    handle: Option<Handle>)

  /** The fields of a SubscribeCOV request that the service reads. */
  datatype SubscribeRequest = SubscribeRequest(
    pduSource: Address,
    subscriberProcessIdentifier: int,
    monitoredObjectIdentifier: ObjectId,
    issueConfirmedNotifications: Option<bool>,
    lifetime: Option<int>)

  /** The detections: for each object with a detection, its subscription list. */
  type Detections = map<LocalObject, seq<Subscription>>

  /** A request without both optional parameters cancels. */
  predicate IsCancel(req: SubscribeRequest)
  {
    req.issueConfirmedNotifications.None? && req.lifetime.None?
  }

  /** Python truthiness of `lifetime`: neither `None` nor 0. */
  predicate LifetimeGiven(lifetime: Option<int>)
  {
    lifetime.Some? && lifetime.value != 0
  }

  /** The three values `find` compares. */
  predicate SameKey(s: Subscription, addr: Address, procId: int, objId: ObjectId)
  {
    s.clientAddr == addr && s.procId == procId && s.objId == objId
  }

  /** `SubscriptionList.find`: the position of the first subscription with the given
    * address, process and object, or `None`. */
  function Find(subs: seq<Subscription>, addr: Address, procId: int, objId: ObjectId): (r: Option<nat>)
    ensures r.None? <==> forall k :: 0 <= k < |subs| ==> !SameKey(subs[k], addr, procId, objId)
    ensures r.Some? ==> (r.value < |subs| && SameKey(subs[r.value], addr, procId, objId) &&
                         forall k :: 0 <= k < r.value ==> !SameKey(subs[k], addr, procId, objId))
  {
    if |subs| == 0 then None
    else if SameKey(subs[0], addr, procId, objId) then Some(0)
    else
      var r := Find(subs[1..], addr, procId, objId);
      if r.None? then None else Some(r.value + 1)
  }

  /** The loop of `find`. */
  method FindSubscription(subs: seq<Subscription>, addr: Address, procId: int, objId: ObjectId)
    returns (r: Option<nat>)
    ensures r == Find(subs, addr, procId, objId)
  {
    var i := 0;
    while i < |subs|
      invariant 0 <= i <= |subs|
      invariant forall k :: 0 <= k < i ==> !SameKey(subs[k], addr, procId, objId)
    {
      if SameKey(subs[i], addr, procId, objId) {
        return Some(i);
      }
      i := i + 1;
    }
    return None;
  }

  /** `call_later(lifetime, ...)` when `lifetime != 0`: the event loop adds the delay to its
    * clock, which fails for `None`. */
  function Schedule(lifetime: Option<int>, now: int): Result<Option<Handle>>
  {
    if lifetime == Some(0) then Ok(None)
    else if lifetime.None? then Err(TypeError)
    else Ok(Some(Handle(now + lifetime.value, false)))
  }

  /** `Subscription.__init__`: the request's parameters, and a timer unless the lifetime is 0. */
  function NewSubscription(obj: LocalObject, req: SubscribeRequest, now: int): Result<Subscription>
  {
    var h :- Schedule(req.lifetime, now);
    Ok(Subscription(obj, req.pduSource, req.subscriberProcessIdentifier, req.monitoredObjectIdentifier,
                    req.issueConfirmedNotifications, req.lifetime, h))
  }

  /** `renew_subscription`: a pending timer is cancelled and a new one started unless the
    * new lifetime is 0; nothing else of the subscription changes. */
  function Renew(s: Subscription, lifetime: Option<int>, now: int): (Result<()>, Subscription)
  {
    var s1 := if s.handle.Some? then s.(handle := Some(s.handle.value.(cancelled := true))) else s;
    match Schedule(lifetime, now)
    case Err(e) => (Err(e), s1)
    case Ok(h) => (Ok(()), if h.Some? then s1.(handle := h) else s1)
  }

  /** A timer once `cancel()` has stopped it; no timer stays none. */
  function Stopped(h: Option<Handle>): (r: Option<Handle>)
    ensures r.Some? <==> h.Some?
    ensures r.Some? ==> r.value.cancelled && r.value.when == h.value.when
  {
    if h.Some? then Some(h.value.(cancelled := true)) else None
  }

  /** `add_subscription`: append to the list of the subscription's object, whose detection
    * must exist. */
  function AddStep(d: Detections, cov: Subscription): (Result<()>, Detections)
  {
    if cov.objRef !in d then (Err(KeyError), d)
    else (Ok(()), d[cov.objRef := d[cov.objRef] + [cov]])
  }

  /** `cancel_subscription` with the timer stopped through its handle: the subscription's
    * timer is cancelled first, and is the third component; then the subscription is
    * removed from its object's list (KeyError without a detection, ValueError when not
    * listed) and a detection left without subscriptions is deleted. */
  function CancelStep(d: Detections, cov: Subscription): (Result<()>, Detections, Option<Handle>)
  {
    var stopped := Stopped(cov.handle);
    if cov.objRef !in d then (Err(KeyError), d, stopped)
    else
      var subs := d[cov.objRef];
      var i := IndexOf(subs, cov);
      if i == -1 then (Err(ValueError), d, stopped)
      else
        var rest := subs[..i] + subs[i + 1..];
        if |rest| == 0 then (Ok(()), d - {cov.objRef}, stopped) else (Ok(()), d[cov.objRef := rest], stopped)
  }

  /** `cancel_subscription` as written, on both paths to it: the service tests
    * `cov.isScheduled` and the subscription's own expiry calls `self.suspend_task()`; a
    * subscription has neither, so the AttributeError comes before anything is removed or
    * any timer stopped. */
  function CancelAsWritten(d: Detections, cov: Subscription): (Result<()>, Detections, Option<Handle>)
  {
    (Err(AttributeError), d, None)
  }

  /** The start of `do_SubscribeCOVRequest`: the object is looked up and its detection made
    * when missing; the result is the object and the detections with its entry present. */
  function Prepare(d: Detections, objects: map<Option<ObjectId>, LocalObject>, req: SubscribeRequest)
    : Result<(LocalObject, Detections)>
  {
    if Some(req.monitoredObjectIdentifier) !in objects then Err(ExecutionError("object", "unknownObject"))
    else
      var obj := objects[Some(req.monitoredObjectIdentifier)];
      if obj in d then Ok((obj, d))
      else if req.monitoredObjectIdentifier.objType !in CriteriaTypes then Err(ExecutionError("services", "covSubscriptionFailed"))
      else Ok((obj, d[obj := []]))
  }

  /** `do_SubscribeCOVRequest` with a working cancel: a match is cancelled or renewed, no
    * match is a new subscription unless the request cancels; success is a SimpleAck. The
    * third component is the timer the request stopped: that of the matched subscription
    * when it is cancelled or renewed. */
  function SubscribeStep(d: Detections, objects: map<Option<ObjectId>, LocalObject>, req: SubscribeRequest, now: int)
    : (Result<()>, Detections, Option<Handle>)
  {
    match Prepare(d, objects, req)
    case Err(e) => (Err(e), d, None)
    case Ok((obj, d1)) =>
      var subs := d1[obj];
      var i := Find(subs, req.pduSource, req.subscriberProcessIdentifier, req.monitoredObjectIdentifier);
      if i.Some? then
        if IsCancel(req) then CancelStep(d1, subs[i.value])
        else
          var (r, s) := Renew(subs[i.value], req.lifetime, now);
          (r, d1[obj := subs[i.value := s]], Stopped(subs[i.value].handle))
      else if IsCancel(req) then (Ok(()), d1, None)
      else match NewSubscription(obj, req, now)
        case Err(e) => (Err(e), d1, None)
        case Ok(cov) => var (r, d2) := AddStep(d1, cov); (r, d2, None)
  }

  /** `do_SubscribeCOVRequest` as written: cancelling a match raises (see `CancelAsWritten`),
    * everything else is `SubscribeStep`. */
  function SubscribeAsWritten(d: Detections, objects: map<Option<ObjectId>, LocalObject>, req: SubscribeRequest, now: int)
    : (Result<()>, Detections, Option<Handle>)
  {
    match Prepare(d, objects, req)
    case Err(e) => (Err(e), d, None)
    case Ok((obj, d1)) =>
      var i := Find(d1[obj], req.pduSource, req.subscriberProcessIdentifier, req.monitoredObjectIdentifier);
      if i.Some? && IsCancel(req) then CancelAsWritten(d1, d1[obj][i.value])
      else SubscribeStep(d, objects, req, now)
  }

  /** The fields of a COV notification that `send_cov_notifications` fills in; the list of
    * values is left out. */
  datatype Notification = Notification(
    confirmedRequest: bool,
    pduDestination: Address,
    subscriberProcessIdentifier: int,
    initiatingDeviceIdentifier: Option<ObjectId>,
    monitoredObjectIdentifier: ObjectId,
    timeRemaining: int)

  /** The time remaining of a subscription, read from its timer: 0 for an indefinite
    * lifetime, otherwise the whole seconds to expiry, or 1 when that is 0. */
  function TimeRemaining(s: Subscription, now: int): int
  {
    if !LifetimeGiven(s.lifetime) || s.handle.None? then 0
    else
      var t := s.handle.value.when - now;
      if t == 0 then 1 else t
  }

  /** The notification for one subscription: confirmed exactly when the subscriber asked
    * for confirmed notifications. */
  function Notify(s: Subscription, device: Option<ObjectId>, now: int): Notification
  {
    Notification(s.confirmed == Some(true), s.clientAddr, s.procId, device, s.objId, TimeRemaining(s, now))
  }

  /** The notifications of `send_cov_notifications`, one per subscription, in list order. */
  function Notifications(subs: seq<Subscription>, device: Option<ObjectId>, now: int): (ns: seq<Notification>)
  {
    seq(|subs|, k requires 0 <= k < |subs| => Notify(subs[k], device, now))
  }

  /** `send_cov_notifications` as written: a subscription with a lifetime reads
    * `cov.taskTime`, which a subscription does not have; the notifications before it are
    * sent, then the AttributeError ends the loop. */
  function NotificationsAsWritten(subs: seq<Subscription>, device: Option<ObjectId>, now: int)
    : (Result<()>, seq<Notification>)
  {
    if |subs| == 0 then (Ok(()), [])
    else if LifetimeGiven(subs[0].lifetime) then (Err(AttributeError), [])
    else
      var (r, ns) := NotificationsAsWritten(subs[1..], device, now);
      (r, [Notify(subs[0], device, now)] + ns)
  }

  /** The loop of `send_cov_notifications`, with the time remaining read from the timer. */
  method SendCovNotifications(subs: seq<Subscription>, device: Option<ObjectId>, now: int)
    returns (sent: seq<Notification>)
    ensures sent == Notifications(subs, device, now)
  {
    sent := [];
    var i := 0;
    while i < |subs|
      invariant 0 <= i <= |subs|
      invariant sent == Notifications(subs[..i], device, now)
    {
      sent := sent + [Notify(subs[i], device, now)];
      i := i + 1;
    }
    assert subs[..i] == subs;
  }

  /** The change-of-value service of an application. */
  class ChangeOfValueServices {
    var covDetections: Detections

    constructor()
      ensures covDetections == map[]
    {
      covDetections := map[];
    }

    method AddSubscription(cov: Subscription) returns (r: Result<()>)
      modifies this
      ensures (r, covDetections) == AddStep(old(covDetections), cov)
    {
      if cov.objRef !in covDetections {
        return Err(KeyError);
      }
      covDetections := covDetections[cov.objRef := covDetections[cov.objRef] + [cov]];
      r := Ok(());
    }

    /** `cancel_subscription`; also what the expiry of a subscription's timer does. The
      * timer it stops is `stopped`. */
    method CancelSubscription(cov: Subscription) returns (r: Result<()>, stopped: Option<Handle>)
      modifies this
      ensures (r, covDetections, stopped) == CancelStep(old(covDetections), cov)
    {
      stopped := Stopped(cov.handle);
      if cov.objRef !in covDetections {
        return Err(KeyError), stopped;
      }
      var subs := covDetections[cov.objRef];
      var i := IndexOf(subs, cov);
      if i == -1 {
        return Err(ValueError), stopped;
      }
      subs := subs[..i] + subs[i + 1..];
      if |subs| == 0 {
        covDetections := covDetections - {cov.objRef};
      } else {
        covDetections := covDetections[cov.objRef := subs];
      }
      r := Ok(());
    }

    /** `do_SubscribeCOVRequest` on the objects of `app`, at time `now`. */
    method DoSubscribeCovRequest(app: Application, req: SubscribeRequest, now: int)
      returns (r: Result<()>, stopped: Option<Handle>)
      modifies this
      ensures (r, covDetections, stopped) == SubscribeStep(old(covDetections), app.objectIdentifier, req, now)
    {
      stopped := None;
      var obj := app.GetObjectId(Some(req.monitoredObjectIdentifier));
      if obj.None? {
        return Err(ExecutionError("object", "unknownObject")), stopped;
      }
      if obj.value !in covDetections {
        if req.monitoredObjectIdentifier.objType !in CriteriaTypes {
          return Err(ExecutionError("services", "covSubscriptionFailed")), stopped;
        }
        covDetections := covDetections[obj.value := []];
      }
      var subs := covDetections[obj.value];
      var i := FindSubscription(subs, req.pduSource, req.subscriberProcessIdentifier, req.monitoredObjectIdentifier);
      if i.Some? {
        if IsCancel(req) {
          r, stopped := CancelSubscription(subs[i.value]);
        } else {
          var renewed := Renew(subs[i.value], req.lifetime, now);
          r := renewed.0;
          stopped := Stopped(subs[i.value].handle);
          covDetections := covDetections[obj.value := subs[i.value := renewed.1]];
        }
      } else if IsCancel(req) {
        r := Ok(());
      } else {
        var cov := NewSubscription(obj.value, req, now);
        if cov.Err? {
          return Err(cov.error), stopped;
        }
        r := AddSubscription(cov.value);
      }
    }
  }
}

/** What the subscription bookkeeping and the notifications promise. */
module CovProperties {
  import opened Wrappers
  import opened Addresses
  import opened App
  import opened Seqs
  import opened Cov

  /** The key of a subscription. */
  function Key(s: Subscription): (Address, int, ObjectId)
  {
    (s.clientAddr, s.procId, s.objId)
  }

  /** Every subscription sits in the list of its own object, a subscription with a lifetime
    * has a timer, and no two subscriptions of a list share address, process and object. */
  predicate Valid(d: Detections)
  {
    forall o :: o in d ==> ListValid(o, d[o])
  }

  predicate ListValid(o: LocalObject, subs: seq<Subscription>)
  {
    (forall k :: 0 <= k < |subs| ==> subs[k].objRef == o && (LifetimeGiven(subs[k].lifetime) ==> subs[k].handle.Some?)) &&
    (forall j, k :: 0 <= j < k < |subs| ==> Key(subs[j]) != Key(subs[k]))
  }

  /** A request for an object the application does not have is refused with
    * `object`/`unknownObject`; one for an object without a detection whose type has no
    * criteria with `services`/`covSubscriptionFailed`; neither changes the detections. */
  lemma SubscribeRefusals(d: Detections, objects: map<Option<ObjectId>, LocalObject>, req: SubscribeRequest, now: int)
    ensures var (r, d', stopped) := SubscribeStep(d, objects, req, now);
      (Some(req.monitoredObjectIdentifier) !in objects ==>
        r == Err(ExecutionError("object", "unknownObject")) && d' == d && stopped.None?) &&
      (Some(req.monitoredObjectIdentifier) in objects &&
       objects[Some(req.monitoredObjectIdentifier)] !in d &&
       req.monitoredObjectIdentifier.objType !in CriteriaTypes ==>
        r == Err(ExecutionError("services", "covSubscriptionFailed")) && d' == d && stopped.None?)
  {
  }

  /** A cancel that matches stops that subscription's timer and removes the subscription:
    * the list keeps every other subscription in order, no subscription of the key is left,
    * and a list left empty takes its detection with it. */
  lemma MatchCancelRemoves(d: Detections, objects: map<Option<ObjectId>, LocalObject>, req: SubscribeRequest, now: int)
    requires Valid(d) && IsCancel(req)
    requires Prepare(d, objects, req).Ok?
    requires var (obj, d1) := Prepare(d, objects, req).value;
      Find(d1[obj], req.pduSource, req.subscriberProcessIdentifier, req.monitoredObjectIdentifier).Some?
    ensures var (obj, d1) := Prepare(d, objects, req).value;
      var subs := d1[obj];
      var i := Find(subs, req.pduSource, req.subscriberProcessIdentifier, req.monitoredObjectIdentifier).value;
      var (r, d', stopped) := SubscribeStep(d, objects, req, now);
      r == Ok(()) && d' - {obj} == d - {obj} &&
      (stopped.Some? <==> subs[i].handle.Some?) &&
      (stopped.Some? ==> stopped.value == subs[i].handle.value.(cancelled := true)) &&
      (|subs| == 1 ==> obj !in d') &&
      (|subs| > 1 ==> (obj in d' && d'[obj] == subs[..i] + subs[i + 1..] &&
                       Find(d'[obj], req.pduSource, req.subscriberProcessIdentifier, req.monitoredObjectIdentifier).None?))
  {
    var (obj, d1) := Prepare(d, objects, req).value;
    var subs := d1[obj];
    var key := (req.pduSource, req.subscriberProcessIdentifier, req.monitoredObjectIdentifier);
    var i := Find(subs, key.0, key.1, key.2).value;
    assert obj in d;
    assert IndexOf(subs, subs[i]) == i;
    var rest := subs[..i] + subs[i + 1..];
    forall k | 0 <= k < |rest|
      ensures !SameKey(rest[k], key.0, key.1, key.2)
    {
      if k < i {
        assert rest[k] == subs[k];
      } else {
        assert rest[k] == subs[k + 1];
        assert Key(subs[i]) != Key(subs[k + 1]);
      }
    }
  }

  /** A renewal that matches changes only the timer of that one subscription, whose old
    * timer it stops: the list keeps its length and every key, and no subscription is
    * added. */
  lemma MatchRenewKeeps(d: Detections, objects: map<Option<ObjectId>, LocalObject>, req: SubscribeRequest, now: int)
    requires !IsCancel(req)
    requires Prepare(d, objects, req).Ok?
    requires var (obj, d1) := Prepare(d, objects, req).value;
      Find(d1[obj], req.pduSource, req.subscriberProcessIdentifier, req.monitoredObjectIdentifier).Some?
    ensures var (obj, d1) := Prepare(d, objects, req).value;
      var subs := d1[obj];
      var i := Find(subs, req.pduSource, req.subscriberProcessIdentifier, req.monitoredObjectIdentifier).value;
      var (r, d', stopped) := SubscribeStep(d, objects, req, now);
      d' - {obj} == d - {obj} && obj in d' && |d'[obj]| == |subs| &&
      (stopped.Some? <==> subs[i].handle.Some?) &&
      (stopped.Some? ==> stopped.value == subs[i].handle.value.(cancelled := true)) &&
      (forall k :: 0 <= k < |subs| ==> Key(d'[obj][k]) == Key(subs[k])) &&
      (forall k :: 0 <= k < |subs| && k != i ==> d'[obj][k] == subs[k]) &&
      d'[obj][i] == subs[i].(handle := d'[obj][i].handle) &&
      (r.Ok? <==> req.lifetime.Some?)
  {
    var (obj, d1) := Prepare(d, objects, req).value;
    assert obj in d;
  }

  /** A cancel without a match leaves every subscription list as it was; the only change
    * is an empty detection made for an object that had none. */
  lemma NoMatchCancel(d: Detections, objects: map<Option<ObjectId>, LocalObject>, req: SubscribeRequest, now: int)
    requires IsCancel(req)
    requires Prepare(d, objects, req).Ok?
    requires var (obj, d1) := Prepare(d, objects, req).value;
      Find(d1[obj], req.pduSource, req.subscriberProcessIdentifier, req.monitoredObjectIdentifier).None?
    ensures var obj := Prepare(d, objects, req).value.0;
      var (r, d', stopped) := SubscribeStep(d, objects, req, now);
      r == Ok(()) && d' - {obj} == d - {obj} && stopped.None? &&
      (obj in d ==> d' == d) && (obj !in d ==> d' == d[obj := []])
  {
  }

  /** A request that is not a cancel and matches nothing appends one new subscription with
    * the request's parameters at the end of its object's list, found there afterwards; it
    * fails only for an omitted lifetime, which leaves the lists as they were. */
  lemma NoMatchCreates(d: Detections, objects: map<Option<ObjectId>, LocalObject>, req: SubscribeRequest, now: int)
    requires !IsCancel(req)
    requires Prepare(d, objects, req).Ok?
    requires var (obj, d1) := Prepare(d, objects, req).value;
      Find(d1[obj], req.pduSource, req.subscriberProcessIdentifier, req.monitoredObjectIdentifier).None?
    ensures var (obj, d1) := Prepare(d, objects, req).value;
      var (r, d', stopped) := SubscribeStep(d, objects, req, now);
      (r.Ok? <==> req.lifetime.Some?) && stopped.None? &&
      (r.Err? ==> r.error == TypeError && d' == d1) &&
      (r.Ok? ==> (d' - {obj} == d - {obj} && obj in d' && |d'[obj]| == |d1[obj]| + 1 &&
                  d'[obj][..|d1[obj]|] == d1[obj] &&
                  (var s := d'[obj][|d1[obj]|];
                   s.objRef == obj && s.clientAddr == req.pduSource &&
                   s.procId == req.subscriberProcessIdentifier && s.objId == req.monitoredObjectIdentifier &&
                   s.confirmed == req.issueConfirmedNotifications && s.lifetime == req.lifetime &&
                   (s.handle.Some? <==> req.lifetime != Some(0)) &&
                   Find(d'[obj], req.pduSource, req.subscriberProcessIdentifier, req.monitoredObjectIdentifier) == Some(|d1[obj]|))))
  {
    var (obj, d1) := Prepare(d, objects, req).value;
    var (r, d', _) := SubscribeStep(d, objects, req, now);
    if r.Ok? {
      var subs := d1[obj];
      var s := NewSubscription(obj, req, now).value;
      assert d'[obj] == subs + [s];
      assert (subs + [s])[..|subs|] == subs;
      FindAppended(subs, s);
    }
  }

  lemma FindAppended(subs: seq<Subscription>, s: Subscription)
    requires Find(subs, s.clientAddr, s.procId, s.objId).None?
    ensures Find(subs + [s], s.clientAddr, s.procId, s.objId) == Some(|subs|)
  {
    var t := subs + [s];
    assert t[|subs|] == s;
    forall k | 0 <= k < |subs|
      ensures !SameKey(t[k], s.clientAddr, s.procId, s.objId)
    {
      assert t[k] == subs[k];
    }
  }

  /** Every subscribe request keeps the detections valid: lists stay with their objects,
    * timers with lifetimes, and keys unique, so `find` has at most one match. */
  lemma SubscribeKeepsValid(d: Detections, objects: map<Option<ObjectId>, LocalObject>, req: SubscribeRequest, now: int)
    requires Valid(d)
    ensures Valid(SubscribeStep(d, objects, req, now).1)
  {
    match Prepare(d, objects, req)
    case Err(_) =>
    case Ok((obj, d1)) =>
      assert Valid(d1);
      var subs := d1[obj];
      var i := Find(subs, req.pduSource, req.subscriberProcessIdentifier, req.monitoredObjectIdentifier);
      if i.Some? {
        if IsCancel(req) {
          CancelKeepsValid(d1, subs[i.value]);
        } else {
          RenewKeepsValid(obj, subs, i.value, req.lifetime, now);
        }
      } else if !IsCancel(req) && NewSubscription(obj, req, now).Ok? {
        var s := NewSubscription(obj, req, now).value;
        AppendKeepsValid(obj, subs, s);
      }
  }

  lemma CancelKeepsValid(d: Detections, cov: Subscription)
    requires Valid(d)
    ensures Valid(CancelStep(d, cov).1)
  {
    if cov.objRef in d && IndexOf(d[cov.objRef], cov) != -1 {
      var subs := d[cov.objRef];
      var i := IndexOf(subs, cov);
      var rest := subs[..i] + subs[i + 1..];
      assert forall k :: 0 <= k < |rest| ==> rest[k] == subs[if k < i then k else k + 1];
      forall j, k | 0 <= j < k < |rest|
        ensures Key(rest[j]) != Key(rest[k])
      {
        assert rest[j] == subs[if j < i then j else j + 1];
        assert rest[k] == subs[if k < i then k else k + 1];
      }
    }
  }

  lemma RenewKeepsValid(o: LocalObject, subs: seq<Subscription>, i: nat, lifetime: Option<int>, now: int)
    requires ListValid(o, subs) && i < |subs|
    ensures ListValid(o, subs[i := Renew(subs[i], lifetime, now).1])
  {
    var t := subs[i := Renew(subs[i], lifetime, now).1];
    assert forall k :: 0 <= k < |t| ==> Key(t[k]) == Key(subs[k]);
  }

  lemma AppendKeepsValid(o: LocalObject, subs: seq<Subscription>, s: Subscription)
    requires ListValid(o, subs) && s.objRef == o && (LifetimeGiven(s.lifetime) ==> s.handle.Some?)
    requires Find(subs, s.clientAddr, s.procId, s.objId).None?
    ensures ListValid(o, subs + [s])
  {
    var t := subs + [s];
    forall j, k | 0 <= j < k < |t|
      ensures Key(t[j]) != Key(t[k])
    {
      if k == |subs| {
        assert t[j] == subs[j];
        assert !SameKey(subs[j], s.clientAddr, s.procId, s.objId);
      } else {
        assert t[j] == subs[j] && t[k] == subs[k];
      }
    }
  }

  /** Removing the last subscription of an object deletes its detection. */
  lemma CancelLastDeletes(d: Detections, cov: Subscription)
    requires cov.objRef in d && d[cov.objRef] == [cov]
    ensures CancelStep(d, cov) == (Ok(()), d - {cov.objRef}, Stopped(cov.handle))
  {
  }

  /** As written, a cancel that matches raises AttributeError, the subscription stays and
    * no timer is stopped; the corrected step removes it and stops its timer. */
  lemma CancelNeverRemoves(d: Detections, objects: map<Option<ObjectId>, LocalObject>, req: SubscribeRequest, now: int)
    requires Valid(d) && IsCancel(req)
    requires Prepare(d, objects, req).Ok?
    requires var (obj, d1) := Prepare(d, objects, req).value;
      Find(d1[obj], req.pduSource, req.subscriberProcessIdentifier, req.monitoredObjectIdentifier).Some?
    ensures var obj := Prepare(d, objects, req).value.0;
      var (r, d', stopped) := SubscribeAsWritten(d, objects, req, now);
      r == Err(AttributeError) && obj in d' && stopped.None? &&
      Find(d'[obj], req.pduSource, req.subscriberProcessIdentifier, req.monitoredObjectIdentifier).Some?
    ensures var obj := Prepare(d, objects, req).value.0;
      var (r, d', stopped) := SubscribeStep(d, objects, req, now);
      var subs := Prepare(d, objects, req).value.1[obj];
      var i := Find(subs, req.pduSource, req.subscriberProcessIdentifier, req.monitoredObjectIdentifier).value;
      stopped == Stopped(subs[i].handle) &&
      r == Ok(()) && (obj !in d' || Find(d'[obj], req.pduSource, req.subscriberProcessIdentifier, req.monitoredObjectIdentifier).None?)
  {
    MatchCancelRemoves(d, objects, req, now);
  }

  /** Apart from a matching cancel, the code as written is the corrected step. */
  lemma SubscribeAsWrittenOtherwise(d: Detections, objects: map<Option<ObjectId>, LocalObject>, req: SubscribeRequest, now: int)
    requires !IsCancel(req)
    ensures SubscribeAsWritten(d, objects, req, now) == SubscribeStep(d, objects, req, now)
  {
  }

  /** Each subscription gets its notification: to its subscriber and process, about its
    * object, from the local device, confirmed exactly when it asked for confirmed ones,
    * with time remaining 0 exactly for an indefinite lifetime, and at least 1 while a
    * timer has not yet fired. */
  lemma NotificationsSpec(d: Detections, o: LocalObject, device: Option<ObjectId>, now: int)
    requires Valid(d) && o in d
    ensures var subs := d[o]; var ns := Notifications(subs, device, now);
      |ns| == |subs| &&
      forall k :: 0 <= k < |subs| ==>
        ns[k].pduDestination == subs[k].clientAddr &&
        ns[k].subscriberProcessIdentifier == subs[k].procId &&
        ns[k].monitoredObjectIdentifier == subs[k].objId &&
        ns[k].initiatingDeviceIdentifier == device &&
        (ns[k].confirmedRequest <==> subs[k].confirmed == Some(true)) &&
        (ns[k].timeRemaining == 0 <==> !LifetimeGiven(subs[k].lifetime)) &&
        (LifetimeGiven(subs[k].lifetime) && subs[k].handle.value.when >= now ==> ns[k].timeRemaining >= 1)
  {
    var subs := d[o];
    assert ListValid(o, subs);
  }

  /** As written, the first subscription with a lifetime ends the notifications with an
    * AttributeError, and only those before it are sent; the corrected loop sends one per
    * subscription. */
  lemma NotificationsAsWrittenStop(subs: seq<Subscription>, device: Option<ObjectId>, now: int, i: nat)
    requires i < |subs| && LifetimeGiven(subs[i].lifetime)
    requires forall k :: 0 <= k < i ==> !LifetimeGiven(subs[k].lifetime)
    ensures NotificationsAsWritten(subs, device, now) == (Err(AttributeError), Notifications(subs[..i], device, now))
    ensures |Notifications(subs, device, now)| == |subs|
  {
    if i > 0 {
      assert !LifetimeGiven(subs[0].lifetime);
      NotificationsAsWrittenStop(subs[1..], device, now, i - 1);
      assert subs[1..][..i - 1] == subs[..i][1..];
      NotificationsCons(subs[..i], device, now);
      assert subs[..i][0] == subs[0];
      var (r, ns) := NotificationsAsWritten(subs[1..], device, now);
      assert NotificationsAsWritten(subs, device, now) == (r, [Notify(subs[0], device, now)] + ns);
    } else {
      assert Notifications(subs[..0], device, now) == [];
    }
  }

  /** Without any subscription with a lifetime, the loop as written sends the corrected
    * notifications. */
  lemma NotificationsAsWrittenIndefinite(subs: seq<Subscription>, device: Option<ObjectId>, now: int)
    requires forall k :: 0 <= k < |subs| ==> !LifetimeGiven(subs[k].lifetime)
    ensures NotificationsAsWritten(subs, device, now) == (Ok(()), Notifications(subs, device, now))
  {
    if |subs| > 0 {
      NotificationsAsWrittenIndefinite(subs[1..], device, now);
      NotificationsCons(subs, device, now);
      assert !LifetimeGiven(subs[0].lifetime);
    } else {
      assert |Notifications(subs, device, now)| == 0;
    }
  }

  lemma NotificationsCons(subs: seq<Subscription>, device: Option<ObjectId>, now: int)
    requires |subs| > 0
    ensures Notifications(subs, device, now) == [Notify(subs[0], device, now)] + Notifications(subs[1..], device, now)
  {
  }
}
