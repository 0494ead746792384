/** The device services (`bacpypes/service/device.py`): the construction checks of the
  * local device object, the Who-Is / I-Am and Who-Has / I-Have exchanges (ASHRAE 135
  * clauses 16.9 and 16.10), and Device Communication Control (clause 16.1). */
module Device {
  import opened Wrappers
  import opened Addresses
  import App
  import StateMachineAp

  /** The largest device instance a Who-Is or Who-Has range may name. */
  const MaxDeviceInstance: int := 4194303

  // ---------------------------------------------------------------------------------
  // The current date and time properties
  // ---------------------------------------------------------------------------------

  /** `ReadProperty` of `localDate` / `localTime`: the clock's value, which the model takes
    * as a parameter; the properties are not arrays. */
  function ReadCurrent<T>(now: T, arrayIndex: Option<int>): (r: Result<T>)
    ensures r.Ok? <==> arrayIndex.None?
    ensures r.Ok? ==> r.value == now
    ensures r.Err? ==> r.error == TypeError
  {
    if arrayIndex.Some? then Err(TypeError) else Ok(now)
  }

  /** `WriteProperty` of `localDate` / `localTime`: always refused. */
  function WriteCurrent<T>(value: T, arrayIndex: Option<int>): (r: Result<()>)
    ensures r == Err(ExecutionError("property", "writeAccessDenied"))
  {
    Err(ExecutionError("property", "writeAccessDenied"))
  }

  // ---------------------------------------------------------------------------------
  // LocalDeviceObject construction
  // ---------------------------------------------------------------------------------

  /** The values the keyword arguments carry, as far as construction inspects them. */
  datatype Value = Num(n: int) | Str(s: string) | Oid(id: App.ObjectId) | Items(items: seq<Value>)

  /** `LocalDeviceObject.defaultProperties`. */
  const DefaultProperties: map<string, Value> := map[
    "maxApduLengthAccepted" := Num(1024),
    "segmentationSupported" := Str("segmentedBoth"),
    "maxSegmentsAccepted" := Num(16),
    "apduSegmentTimeout" := Num(5000),
    "apduTimeout" := Num(3000),
    "numberOfApduRetries" := Num(3)]

  /** A keyword starting with `_` names a plain attribute, not a property. */
  predicate Private(key: string)
  {
    |key| > 0 && key[0] == '_'
  }

  /** What construction hands on: the properties for `DeviceObject`, the attributes set on
    * the object, and the vendor identifier the class was registered with by this call
    * (none when it was registered already). */
  datatype DeviceInit = DeviceInit(
    properties: map<string, Value>,
    attributes: map<string, Value>,
    registration: Option<Value>)

  /** The arguments once the defaults are filled in: the caller's value wins. */
  function Filled(kwargs: map<string, Value>): map<string, Value>
  {
    DefaultProperties + kwargs
  }

  function PropertiesOf(m: map<string, Value>): map<string, Value>
  {
    map k | k in m && !Private(k) :: m[k]
  }

  function AttributesOf(m: map<string, Value>): map<string, Value>
  {
    map k | k in m && Private(k) :: m[k]
  }

  /** The checks that follow the attribute split: registration needs a vendor identifier,
    * `localDate`, `localTime` and `objectList` may not be given, `objectIdentifier` must be,
    * and `maxApduLengthAccepted` must be at least 50 (a value that is not a number cannot
    * be compared with 50). */
  function Checked(props: map<string, Value>, attrs: map<string, Value>, registered: bool): Result<DeviceInit>
  {
    if !registered && "vendorIdentifier" !in props then Err(RuntimeError)
    else if "localDate" in props then Err(RuntimeError)
    else if "localTime" in props then Err(RuntimeError)
    else if "objectIdentifier" !in props then Err(RuntimeError)
    else if "objectList" in props then Err(RuntimeError)
    else if "maxApduLengthAccepted" !in props then Err(KeyError)
    else if !props["maxApduLengthAccepted"].Num? then Err(TypeError)
    else if props["maxApduLengthAccepted"].n < 50 then Err(ValueError)
    else
      Ok(DeviceInit(
        props["objectList" := Items([props["objectIdentifier"]])],
        attrs,
        if registered then None else Some(props["vendorIdentifier"])))
  }

  /** `LocalDeviceObject.__init__` with the `_` keywords moved out of the arguments after
    * the iteration over them, which is what the code intends. */
  function Initialized(kwargs: map<string, Value>, registered: bool): Result<DeviceInit>
  {
    var filled := Filled(kwargs);
    Checked(PropertiesOf(filled), AttributesOf(filled), registered)
  }

  /** `LocalDeviceObject.__init__` as written: the `_` keywords are deleted from the
    * dictionary while it is being iterated, which Python 3 refuses with a RuntimeError at
    * the next step of the iteration. */
  function InitializedAsWritten(kwargs: map<string, Value>, registered: bool): Result<DeviceInit>
  {
    if exists k :: k in kwargs && Private(k) then Err(RuntimeError)
    else Initialized(kwargs, registered)
  }

  /** The first loop of the construction: every default whose key the caller did not
    * give is added, one key at a time. */
  method FillDefaults(kwargs: map<string, Value>, defaults: map<string, Value>)
    returns (filled: map<string, Value>)
    ensures filled == defaults + kwargs
  {
    filled := kwargs;
    var pending := defaults.Keys;
    while pending != {}
      invariant pending <= defaults.Keys
      invariant filled.Keys == kwargs.Keys + (defaults.Keys - pending)
      invariant forall k :: k in filled ==> filled[k] == if k in kwargs then kwargs[k] else defaults[k]
      decreases pending
    {
      var attr :| attr in pending;
      if attr !in filled {
        filled := filled[attr := defaults[attr]];
      }
      pending := pending - {attr};
    }
  }

  /** The second loop of the construction: every keyword is filed as a property or, when
    * it starts with `_`, as an attribute. */
  method SplitPrivate(m: map<string, Value>)
    returns (props: map<string, Value>, attrs: map<string, Value>)
    ensures props == PropertiesOf(m) && attrs == AttributesOf(m)
  {
    props := map[];
    attrs := map[];
    var keys := m.Keys;
    while keys != {}
      invariant keys <= m.Keys
      invariant props == map k | k in m && k !in keys && !Private(k) :: m[k]
      invariant attrs == map k | k in m && k !in keys && Private(k) :: m[k]
      decreases keys
    {
      var key :| key in keys;
      if Private(key) {
        attrs := attrs[key := m[key]];
      } else {
        props := props[key := m[key]];
      }
      keys := keys - {key};
    }
  }

  /** `LocalDeviceObject.__init__`, with its two loops. */
  method NewLocalDevice(kwargs: map<string, Value>, registered: bool) returns (r: Result<DeviceInit>)
    ensures r == Initialized(kwargs, registered)
  {
    var filled := FillDefaults(kwargs, DefaultProperties);
    var props, attrs := SplitPrivate(filled);
    r := Checked(props, attrs, registered);
  }

  // ---------------------------------------------------------------------------------
  // Who-Is / I-Am
  // ---------------------------------------------------------------------------------

  /** What the services read of the local device. */
  datatype DeviceView = DeviceView(
    objectIdentifier: App.ObjectId,
    maxApduLengthAccepted: int,
    segmentationSupported: string,
    vendorIdentifier: int)

  predicate InstanceInRange(x: int)
  {
    0 <= x <= MaxDeviceInstance
  }

  /** The limit checks of `who_is` and `do_WhoIsRequest`, in their order: a low limit needs
    * a high limit and must be in range, then the same of the high limit. */
  function WhoIsLimits(low: Option<int>, high: Option<int>): Result<()>
  {
    if low.Some? && high.None? then Err(MissingRequiredParameter)
    else if low.Some? && !InstanceInRange(low.value) then Err(ParameterOutOfRange)
    else if high.Some? && low.None? then Err(MissingRequiredParameter)
    else if high.Some? && !InstanceInRange(high.value) then Err(ParameterOutOfRange)
    else Ok(())
  }

  /** The destination of an unconfirmed request: the given address, else a global
    * broadcast (an address object is always true, so only `None` is replaced). */
  function Destination(address: Option<Address>): Address
  {
    if address.None? then GlobalBroadcast else address.value
  }

  datatype WhoIsRequest = WhoIsRequest(low: Option<int>, high: Option<int>, destination: Address)

  /** `who_is`: the request sent, or the exception raised before sending. */
  function WhoIs(low: Option<int>, high: Option<int>, address: Option<Address>): Result<WhoIsRequest>
  {
    var _ :- WhoIsLimits(low, high);
    Ok(WhoIsRequest(low, high, Destination(address)))
  }

  /** An inbound Who-Is: its two limits and the address it came from. */
  datatype WhoIsApdu = WhoIsApdu(low: Option<int>, high: Option<int>, source: Option<Address>)

  datatype IAmRequest = IAmRequest(
    iAmDeviceIdentifier: App.ObjectId,
    maxApduLengthAccepted: int,
    segmentationSupported: string,
    vendorID: int,
    destination: Address)

  /** `i_am`: nothing without a local device, else the device's four parameters. */
  function IAm(device: Option<DeviceView>, address: Option<Address>): Option<IAmRequest>
  {
    if device.None? then None
    else
      var d := device.value;
      Some(IAmRequest(d.objectIdentifier, d.maxApduLengthAccepted, d.segmentationSupported,
        d.vendorIdentifier, Destination(address)))
  }

  /** The local instance lies within the limits that are given. */
  predicate Within(instance: int, low: Option<int>, high: Option<int>)
  {
    (low.None? || low.value <= instance) && (high.None? || instance <= high.value)
  }

  /** `do_WhoIsRequest`: the I-Am sent back, if any. */
  function DoWhoIsRequest(device: Option<DeviceView>, apdu: WhoIsApdu): Result<Option<IAmRequest>>
  {
    if device.None? then Ok(None)
    else
      var _ :- WhoIsLimits(apdu.low, apdu.high);
      if !Within(device.value.objectIdentifier.instance, apdu.low, apdu.high) then Ok(None)
      else Ok(IAm(device, apdu.source))
  }

  /** An inbound I-Am with its four parameters, any of which may be missing. */
  datatype IAmApdu = IAmApdu(
    iAmDeviceIdentifier: Option<App.ObjectId>,
    maxApduLengthAccepted: Option<int>,
    segmentationSupported: Option<string>,
    vendorID: Option<int>,
    source: Option<Address>)

  /** `do_IAmRequest`: the four parameters are required; the device instance and the
    * source address are what it extracts. */
  function DoIAmRequest(apdu: IAmApdu): Result<(int, Option<Address>)>
  {
    if apdu.iAmDeviceIdentifier.None? then Err(MissingRequiredParameter)
    else if apdu.maxApduLengthAccepted.None? then Err(MissingRequiredParameter)
    else if apdu.segmentationSupported.None? then Err(MissingRequiredParameter)
    else if apdu.vendorID.None? then Err(MissingRequiredParameter)
    else Ok((apdu.iAmDeviceIdentifier.value.instance, apdu.source))
  }

  // ---------------------------------------------------------------------------------
  // Who-Has / I-Have
  // ---------------------------------------------------------------------------------

  datatype Limits = Limits(low: Option<int>, high: Option<int>)

  /** The object a Who-Has asks for, by identifier or by name. */
  datatype WhoHasObject = WhoHasObject(objectIdentifier: Option<App.ObjectId>, objectName: Option<string>)

  datatype WhoHasApdu = WhoHasApdu(limits: Option<Limits>, target: WhoHasObject, source: Option<Address>)

  datatype IHaveRequest = IHaveRequest(
    deviceIdentifier: App.ObjectId,
    objectIdentifier: Option<App.ObjectId>,
    objectName: Option<string>,
    destination: Address)

  /** The limit checks of `do_WhoHasRequest`, in their order: low limit present and in
    * range, then high limit present and in range. */
  function WhoHasLimits(limits: Limits): Result<()>
  {
    if limits.low.None? then Err(MissingRequiredParameter)
    else if !InstanceInRange(limits.low.value) then Err(ParameterOutOfRange)
    else if limits.high.None? then Err(MissingRequiredParameter)
    else if !InstanceInRange(limits.high.value) then Err(ParameterOutOfRange)
    else Ok(())
  }

  /** The object looked up in the application's dictionaries: by identifier when one is
    * given, else by name; a request naming neither is inconsistent. */
  function FindObject(app: App.AppFields, target: WhoHasObject): Result<Option<App.LocalObject>>
  {
    if target.objectIdentifier.Some? then
      Ok(if target.objectIdentifier in app.ids then Some(app.ids[target.objectIdentifier]) else None)
    else if target.objectName.Some? then
      Ok(if target.objectName in app.names then Some(app.names[target.objectName]) else None)
    else Err(InconsistentParameters)
  }

  /** `i_have`: nothing without a local device, else the object's identifier and name. */
  function IHave(device: Option<DeviceView>, thing: App.LocalObject, address: Option<Address>): Option<IHaveRequest>
  {
    if device.None? then None
    else Some(IHaveRequest(device.value.objectIdentifier, thing.objectIdentifier, thing.objectName, Destination(address)))
  }

  /** `do_WhoHasRequest`: the I-Have sent back, if any. */
  function DoWhoHasRequest(device: Option<DeviceView>, app: App.AppFields, apdu: WhoHasApdu): Result<Option<IHaveRequest>>
  {
    if device.None? then Ok(None)
    else if apdu.limits.Some? && WhoHasLimits(apdu.limits.value).Err? then
      Err(WhoHasLimits(apdu.limits.value).error)
    else if apdu.limits.Some? &&
      !Within(device.value.objectIdentifier.instance, apdu.limits.value.low, apdu.limits.value.high) then
      Ok(None)
    else
      var obj :- FindObject(app, apdu.target);
      if obj.None? then Ok(None) else Ok(IHave(device, obj.value, apdu.source))
  }

  /** `if not self.localDevice` as written: an application built without a device never
    * assigns the attribute, so reading it raises AttributeError; a device is always true. */
  function LocalDeviceAsWritten(device: Option<DeviceView>): Result<DeviceView>
  {
    if device.None? then Err(AttributeError) else Ok(device.value)
  }

  /** `do_WhoIsRequest`, `i_am`, `do_WhoHasRequest` and `i_have` as written: the guard reads
    * the attribute first. */
  function DoWhoIsRequestAsWritten(device: Option<DeviceView>, apdu: WhoIsApdu): Result<Option<IAmRequest>>
  {
    var _ :- LocalDeviceAsWritten(device);
    DoWhoIsRequest(device, apdu)
  }

  function IAmAsWritten(device: Option<DeviceView>, address: Option<Address>): Result<Option<IAmRequest>>
  {
    var _ :- LocalDeviceAsWritten(device);
    Ok(IAm(device, address))
  }

  function DoWhoHasRequestAsWritten(device: Option<DeviceView>, app: App.AppFields, apdu: WhoHasApdu): Result<Option<IHaveRequest>>
  {
    var _ :- LocalDeviceAsWritten(device);
    DoWhoHasRequest(device, app, apdu)
  }

  function IHaveAsWritten(device: Option<DeviceView>, thing: App.LocalObject, address: Option<Address>): Result<Option<IHaveRequest>>
  {
    var _ :- LocalDeviceAsWritten(device);
    Ok(IHave(device, thing, address))
  }

  /** An inbound I-Have with its three parameters. */
  datatype IHaveApdu = IHaveApdu(
    deviceIdentifier: Option<App.ObjectId>,
    objectIdentifier: Option<App.ObjectId>,
    objectName: Option<string>)

  /** `do_IHaveRequest`: the three parameters are required. */
  function DoIHaveRequest(apdu: IHaveApdu): Result<()>
  {
    if apdu.deviceIdentifier.None? then Err(MissingRequiredParameter)
    else if apdu.objectIdentifier.None? then Err(MissingRequiredParameter)
    else if apdu.objectName.None? then Err(MissingRequiredParameter)
    else Ok(())
  }

  // ---------------------------------------------------------------------------------
  // Device Communication Control
  // ---------------------------------------------------------------------------------

  /** The `enable_communications` call scheduled for later, with its delay in seconds. */
  datatype EnableTask = EnableTask(delay: int)

  /** The state the service changes: the access point's `dccEnableDisable` and the
    * scheduled re-enable. */
  datatype DccFields = DccFields(dcc: StateMachineAp.Dcc, handle: Option<EnableTask>)

  /** A DeviceCommunicationControl request. */
  datatype DccRequest = DccRequest(
    timeDuration: Option<int>,
    enableDisable: StateMachineAp.Dcc,
    password: Option<string>)

  /** Python truthiness of a character string that may be missing. */
  predicate TextGiven(s: Option<string>)
  {
    s.Some? && s.value != []
  }

  /** Python truthiness of the time duration: neither missing nor 0 minutes. */
  predicate DurationGiven(d: Option<int>)
  {
    d.Some? && d.value != 0
  }

  /** `enable_communications` and `disable_communications`: set the value and cancel the
    * scheduled re-enable; the second component is the task cancelled. */
  function SetStep(f: DccFields, value: StateMachineAp.Dcc): (DccFields, Option<EnableTask>)
  {
    (DccFields(value, None), f.handle)
  }

  /** The password check: a device password that is set must be matched exactly. */
  predicate PasswordRefused(devicePassword: Option<string>, req: DccRequest)
  {
    TextGiven(devicePassword) && (!TextGiven(req.password) || req.password != devicePassword)
  }

  /** `do_DeviceCommunicationControlRequest`: the task cancelled when the request is
    * acknowledged, or the error; the new state. */
  function DccStep(f: DccFields, devicePassword: Option<string>, req: DccRequest): (Result<Option<EnableTask>>, DccFields)
  {
    if PasswordRefused(devicePassword, req) then
      (Err(ExecutionError("security", "passwordFailure")), f)
    else if req.enableDisable == StateMachineAp.Enable then
      var (g, cancelled) := SetStep(f, StateMachineAp.Enable);
      (Ok(cancelled), g)
    else
      var (g, cancelled) := SetStep(f, req.enableDisable);
      if DurationGiven(req.timeDuration) then
        (Ok(cancelled), g.(handle := Some(EnableTask(req.timeDuration.value * 60))))
      else (Ok(cancelled), g)
  }

  /** `enable_communications` / `disable_communications` as written: the handle returned
    * by `call_later` is an event-loop handle, which has no `suspend_task`, so with a task
    * scheduled the value is set and then an AttributeError leaves the handle in place. */
  function SetStepAsWritten(f: DccFields, value: StateMachineAp.Dcc): (Result<()>, DccFields)
  {
    if f.handle.Some? then (Err(AttributeError), f.(dcc := value))
    else (Ok(()), f.(dcc := value))
  }

  /** `do_DeviceCommunicationControlRequest` over the as-written enable and disable. */
  function DccStepAsWritten(f: DccFields, devicePassword: Option<string>, req: DccRequest): (Result<()>, DccFields)
  {
    if PasswordRefused(devicePassword, req) then
      (Err(ExecutionError("security", "passwordFailure")), f)
    else
      var (r, g) := SetStepAsWritten(f, req.enableDisable);
      if r.Err? then (r, g)
      else if req.enableDisable != StateMachineAp.Enable && DurationGiven(req.timeDuration) then
        (Ok(()), g.(handle := Some(EnableTask(req.timeDuration.value * 60))))
      else (Ok(()), g)
  }

  /** The DeviceCommunicationControl capability, bound to the application's state machine
    * access point. */
  class DeviceCommunicationControlServices {
    const smap: StateMachineAp.StateMachineAccessPoint
    var dccEnableHandle: Option<EnableTask>

    function Fields(): DccFields
      reads this, smap
    {
      DccFields(smap.dccEnableDisable, dccEnableHandle)
    }

    /** `__init__`: no re-enable is scheduled. */
    constructor (smap: StateMachineAp.StateMachineAccessPoint)
      ensures this.smap == smap && dccEnableHandle == None
    {
      this.smap := smap;
      dccEnableHandle := None;
    }

    /** `enable_communications`, also what the scheduled task runs when it fires. */
    method EnableCommunications() returns (cancelled: Option<EnableTask>)
      modifies this, smap
      ensures (Fields(), cancelled) == SetStep(old(Fields()), StateMachineAp.Enable)
      ensures smap.Fields() == old(smap.Fields()).(dcc := StateMachineAp.Enable)
      ensures smap.settings == old(smap.settings)
    {
      smap.dccEnableDisable := StateMachineAp.Enable;
      cancelled := dccEnableHandle;
      dccEnableHandle := None;
    }

    /** `disable_communications`. */
    method DisableCommunications(value: StateMachineAp.Dcc) returns (cancelled: Option<EnableTask>)
      modifies this, smap
      ensures (Fields(), cancelled) == SetStep(old(Fields()), value)
      ensures smap.Fields() == old(smap.Fields()).(dcc := value)
      ensures smap.settings == old(smap.settings)
    {
      smap.dccEnableDisable := value;
      cancelled := dccEnableHandle;
      dccEnableHandle := None;
    }

    /** `do_DeviceCommunicationControlRequest`; `devicePassword` is the local device's
      * `_dcc_password` attribute, none when it has none. `Ok` is the simple ack. */
    method DoDeviceCommunicationControlRequest(devicePassword: Option<string>, req: DccRequest)
      returns (r: Result<Option<EnableTask>>)
      modifies this, smap
      ensures (r, Fields()) == DccStep(old(Fields()), devicePassword, req)
      ensures smap.Fields() == old(smap.Fields()).(dcc := smap.dccEnableDisable)
      ensures smap.settings == old(smap.settings)
    {
      if PasswordRefused(devicePassword, req) {
        return Err(ExecutionError("security", "passwordFailure"));
      }
      if req.enableDisable == StateMachineAp.Enable {
        var cancelled := EnableCommunications();
        r := Ok(cancelled);
      } else {
        var cancelled := DisableCommunications(req.enableDisable);
        if DurationGiven(req.timeDuration) {
          dccEnableHandle := Some(EnableTask(req.timeDuration.value * 60));
        }
        r := Ok(cancelled);
      }
    }
  }
}

module DeviceProperties {
  import opened Wrappers
  import opened Addresses
  import App
  import StateMachineAp
  import opened Device

  // ---------------------------------------------------------------------------------
  // LocalDeviceObject construction
  // ---------------------------------------------------------------------------------

  /** A completed construction is the checks' result on the filled-in arguments. */
  lemma InitializedShape(kwargs: map<string, Value>, registered: bool)
    ensures var r := Initialized(kwargs, registered);
      var props := PropertiesOf(Filled(kwargs));
      r.Ok? ==>
        "objectIdentifier" in props && "maxApduLengthAccepted" in props &&
        props["maxApduLengthAccepted"].Num? && props["maxApduLengthAccepted"].n >= 50 &&
        r.value.properties == props["objectList" := Items([props["objectIdentifier"]])] &&
        r.value.attributes == AttributesOf(Filled(kwargs)) &&
        (registered ==> r.value.registration == None) &&
        (!registered ==> "vendorIdentifier" in props && r.value.registration == Some(props["vendorIdentifier"]))
  {
  }

  /** A completed construction: the defaults are present, the caller's values win, no `_`
    * keyword is a property, and the object list holds exactly the object identifier. */
  lemma InitializedProperties(kwargs: map<string, Value>, registered: bool)
    ensures var r := Initialized(kwargs, registered);
      r.Ok? ==>
        var p := r.value.properties;
        (forall k :: k in DefaultProperties && k !in kwargs ==> k in p && p[k] == DefaultProperties[k]) &&
        (forall k :: k in kwargs && !Private(k) && k != "objectList" ==> k in p && p[k] == kwargs[k]) &&
        (forall k :: k in p ==> !Private(k)) &&
        "objectIdentifier" in kwargs &&
        p["objectList"] == Items([kwargs["objectIdentifier"]]) &&
        p["maxApduLengthAccepted"].Num? && p["maxApduLengthAccepted"].n >= 50
  {
    InitializedShape(kwargs, registered);
    DefaultsPublic();
    assert !Private("objectList") && !Private("objectIdentifier");
  }

  /** A completed construction sets exactly the caller's `_` keywords as attributes, and
    * registers the class with the caller's vendor identifier when it was not registered. */
  lemma InitializedAttributes(kwargs: map<string, Value>, registered: bool)
    ensures var r := Initialized(kwargs, registered);
      r.Ok? ==>
        r.value.attributes == AttributesOf(kwargs) &&
        (r.value.registration.Some? <==> !registered) &&
        (!registered ==> "vendorIdentifier" in kwargs && r.value.registration == Some(kwargs["vendorIdentifier"]))
  {
    InitializedShape(kwargs, registered);
    DefaultsPublic();
    assert AttributesOf(Filled(kwargs)) == AttributesOf(kwargs);
    assert "vendorIdentifier" !in DefaultProperties;
  }

  /** The refusals: the forbidden and missing properties raise RuntimeError, and a maximum
    * APDU length below 50 raises ValueError once those pass. */
  lemma InitializedRefusals(kwargs: map<string, Value>, registered: bool)
    ensures "localDate" in kwargs ==> Initialized(kwargs, registered).Err?
    ensures "localTime" in kwargs ==> Initialized(kwargs, registered).Err?
    ensures "objectList" in kwargs ==> Initialized(kwargs, registered).Err?
    ensures "objectIdentifier" !in kwargs ==> Initialized(kwargs, registered) == Err(RuntimeError)
    ensures !registered && "vendorIdentifier" !in kwargs ==> Initialized(kwargs, registered) == Err(RuntimeError)
    ensures ((registered || "vendorIdentifier" in kwargs) && "objectIdentifier" in kwargs &&
      "localDate" !in kwargs && "localTime" !in kwargs && "objectList" !in kwargs) ==>
        (Initialized(kwargs, registered) == Err(ValueError) <==>
          exists n :: n < 50 && Filled(kwargs)["maxApduLengthAccepted"] == Num(n))
  {
    var filled := Filled(kwargs);
    var props := PropertiesOf(filled);
    assert "maxApduLengthAccepted" in filled;
    assert "localDate" in kwargs ==> "localDate" in props;
    assert "localTime" in kwargs ==> "localTime" in props;
    assert "objectList" in kwargs ==> "objectList" in props;
    if (registered || "vendorIdentifier" in kwargs) && "objectIdentifier" in kwargs &&
      "localDate" !in kwargs && "localTime" !in kwargs && "objectList" !in kwargs
    {
      assert "objectIdentifier" in props && "maxApduLengthAccepted" in props;
      var m := props["maxApduLengthAccepted"];
      if m.Num? && m.n < 50 {
        assert Filled(kwargs)["maxApduLengthAccepted"] == Num(m.n);
      }
    }
  }

  /** As written, any `_` keyword makes construction fail; without one the two agree. */
  lemma InitializedAsWrittenSpec(kwargs: map<string, Value>, registered: bool)
    ensures (exists k :: k in kwargs && Private(k)) ==> InitializedAsWritten(kwargs, registered) == Err(RuntimeError)
    ensures (forall k :: k in kwargs ==> !Private(k)) ==>
      InitializedAsWritten(kwargs, registered) == Initialized(kwargs, registered)
  {
  }

  /** No default property is an attribute. */
  lemma DefaultsPublic()
    ensures forall k :: k in DefaultProperties ==> !Private(k)
  {
    forall k | k in DefaultProperties ensures !Private(k) {
      assert k[0] == 'm' || k[0] == 's' || k[0] == 'a' || k[0] == 'n';
    }
  }

  /** Construction succeeds when the checks pass; its attributes are the caller's `_`
    * keywords. */
  lemma InitializedAccepts(kwargs: map<string, Value>, registered: bool)
    requires registered || "vendorIdentifier" in kwargs
    requires "objectIdentifier" in kwargs
    requires "localDate" !in kwargs && "localTime" !in kwargs && "objectList" !in kwargs
    requires "maxApduLengthAccepted" !in kwargs ||
      (kwargs["maxApduLengthAccepted"].Num? && kwargs["maxApduLengthAccepted"].n >= 50)
    ensures Initialized(kwargs, registered).Ok?
    ensures Initialized(kwargs, registered).value.attributes == AttributesOf(kwargs)
  {
    var filled := Filled(kwargs);
    var props := PropertiesOf(filled);
    assert !Private("objectIdentifier") && !Private("vendorIdentifier") && !Private("maxApduLengthAccepted");
    assert "maxApduLengthAccepted" in filled;
    assert "objectIdentifier" in props && "maxApduLengthAccepted" in props;
    assert !registered ==> "vendorIdentifier" in props;
    DefaultsPublic();
    assert AttributesOf(filled) == AttributesOf(kwargs);
  }

  /** A device configured with a DCC password: as written its construction fails, while
    * the intended construction keeps the password as an attribute. */
  lemma PasswordDeviceAsWritten()
    ensures var kwargs := map["objectIdentifier" := Oid(App.ObjectId("device", 599)),
                              "_dcc_password" := Str("secret")];
      InitializedAsWritten(kwargs, true) == Err(RuntimeError) &&
      Initialized(kwargs, true).Ok? &&
      Initialized(kwargs, true).value.attributes == map["_dcc_password" := Str("secret")]
  {
    var kwargs := map["objectIdentifier" := Oid(App.ObjectId("device", 599)),
                      "_dcc_password" := Str("secret")];
    assert kwargs.Keys == {"objectIdentifier", "_dcc_password"};
    assert "_dcc_password" in kwargs && Private("_dcc_password");
    assert "localDate" !in kwargs && "localTime" !in kwargs && "objectList" !in kwargs;
    assert "maxApduLengthAccepted" !in kwargs;
    InitializedAccepts(kwargs, true);
    assert AttributesOf(kwargs) == map["_dcc_password" := Str("secret")] by {
      assert !Private("objectIdentifier");
      assert AttributesOf(kwargs).Keys == {"_dcc_password"};
    }
  }

  // ---------------------------------------------------------------------------------
  // Who-Is / I-Am
  // ---------------------------------------------------------------------------------

  /** `who_is` sends a request exactly when both limits or neither are given and those
    * given are device instances; one without the other is a missing parameter, and a
    * limit out of range (with its partner present) is out of range. */
  lemma WhoIsSpec(low: Option<int>, high: Option<int>, address: Option<Address>)
    ensures var r := WhoIs(low, high, address);
      (r.Ok? <==> ((low.Some? <==> high.Some?) &&
        (low.Some? ==> InstanceInRange(low.value)) && (high.Some? ==> InstanceInRange(high.value)))) &&
      (low.Some? != high.Some? ==> r == Err(MissingRequiredParameter)) &&
      (low.Some? && high.Some? && !(InstanceInRange(low.value) && InstanceInRange(high.value)) ==>
        r == Err(ParameterOutOfRange)) &&
      (r.Ok? ==> (r.value.low == low && r.value.high == high &&
        r.value.destination == (if address.Some? then address.value else GlobalBroadcast)))
  {
  }

  /** A device answers a Who-Is exactly when the request's limits pass and its own
    * instance lies within them; the I-Am goes back to the requester, or to everyone when
    * the source is unknown, and carries the device's parameters. */
  lemma DoWhoIsRequestSpec(device: Option<DeviceView>, apdu: WhoIsApdu)
    ensures var r := DoWhoIsRequest(device, apdu);
      (device.None? ==> r == Ok(None)) &&
      (device.Some? ==>
        (r.Err? <==> WhoIsLimits(apdu.low, apdu.high).Err?) &&
        (r.Err? ==> r.error == WhoIsLimits(apdu.low, apdu.high).error) &&
        (r.Ok? ==> (r.value.Some? <==> Within(device.value.objectIdentifier.instance, apdu.low, apdu.high)))) &&
      (r.Ok? && r.value.Some? ==>
        r.value.value.iAmDeviceIdentifier == device.value.objectIdentifier &&
        r.value.value.maxApduLengthAccepted == device.value.maxApduLengthAccepted &&
        r.value.value.segmentationSupported == device.value.segmentationSupported &&
        r.value.value.vendorID == device.value.vendorIdentifier &&
        r.value.value.destination == Destination(apdu.source))
  {
  }

  /** As written, an application without a local device raises AttributeError at the guard
    * of each of the four Who-Is and Who-Has operations, where the corrected ones do nothing;
    * with a device they agree. */
  lemma NoDeviceAsWritten(device: Option<DeviceView>, app: App.AppFields, whoIs: WhoIsApdu, whoHas: WhoHasApdu,
                          thing: App.LocalObject, address: Option<Address>)
    ensures device.None? ==>
      DoWhoIsRequestAsWritten(device, whoIs) == Err(AttributeError) && DoWhoIsRequest(device, whoIs) == Ok(None) &&
      IAmAsWritten(device, address) == Err(AttributeError) && IAm(device, address) == None &&
      DoWhoHasRequestAsWritten(device, app, whoHas) == Err(AttributeError) && DoWhoHasRequest(device, app, whoHas) == Ok(None) &&
      IHaveAsWritten(device, thing, address) == Err(AttributeError) && IHave(device, thing, address) == None
    ensures device.Some? ==>
      DoWhoIsRequestAsWritten(device, whoIs) == DoWhoIsRequest(device, whoIs) &&
      IAmAsWritten(device, address) == Ok(IAm(device, address)) &&
      DoWhoHasRequestAsWritten(device, app, whoHas) == DoWhoHasRequest(device, app, whoHas) &&
      IHaveAsWritten(device, thing, address) == Ok(IHave(device, thing, address))
  {
  }

  /** A Who-Is or Who-Has whose limits fail is rejected: the helper's MissingRequiredParameter
    * or ParameterOutOfRange is raised again by `indication`, confirmed or not. */
  lemma LimitErrorsRejected(device: DeviceView, app: App.AppFields, whoIs: WhoIsApdu, whoHas: WhoHasApdu, confirmed: bool)
    ensures WhoIsLimits(whoIs.low, whoIs.high).Err? ==>
      var r := DoWhoIsRequest(Some(device), whoIs);
      r.Err? && App.Indication(confirmed, Some(Err(r.error))) == Err(WhoIsLimits(whoIs.low, whoIs.high).error)
    ensures whoHas.limits.Some? && WhoHasLimits(whoHas.limits.value).Err? ==>
      var r := DoWhoHasRequest(Some(device), app, whoHas);
      r.Err? && App.Indication(confirmed, Some(Err(r.error))) == Err(WhoHasLimits(whoHas.limits.value).error)
  {
  }

  /** A Who-Is that `who_is` would send passes the receiving device's checks, and the
    * device answers it exactly when its instance is in the requested range. */
  lemma WhoIsAnswered(low: Option<int>, high: Option<int>, address: Option<Address>,
                      device: DeviceView, source: Option<Address>)
    requires WhoIs(low, high, address).Ok?
    ensures var req := WhoIs(low, high, address).value;
      var r := DoWhoIsRequest(Some(device), WhoIsApdu(req.low, req.high, source));
      r.Ok? &&
      (r.value.Some? <==>
        (low.None? || (low.value <= device.objectIdentifier.instance <= high.value)))
  {
  }

  /** An I-Am is accepted exactly when its four parameters are present. */
  lemma DoIAmRequestSpec(apdu: IAmApdu)
    ensures var r := DoIAmRequest(apdu);
      (r.Ok? <==> (apdu.iAmDeviceIdentifier.Some? && apdu.maxApduLengthAccepted.Some? &&
        apdu.segmentationSupported.Some? && apdu.vendorID.Some?)) &&
      (r.Err? ==> r.error == MissingRequiredParameter) &&
      (r.Ok? ==> r.value == (apdu.iAmDeviceIdentifier.value.instance, apdu.source))
  {
  }

  // ---------------------------------------------------------------------------------
  // Who-Has / I-Have
  // ---------------------------------------------------------------------------------

  /** Limits on a Who-Has must carry both values, each a device instance. */
  lemma WhoHasLimitsSpec(limits: Limits)
    ensures var r := WhoHasLimits(limits);
      (r.Ok? <==> (limits.low.Some? && limits.high.Some? &&
        InstanceInRange(limits.low.value) && InstanceInRange(limits.high.value))) &&
      ((limits.low.None? || limits.high.None?) && r.Err? && r.error != MissingRequiredParameter ==>
        r.error == ParameterOutOfRange && limits.low.Some? && !InstanceInRange(limits.low.value))
  {
  }

  /** Without a local device nothing is done. A device answers a Who-Has exactly when the
    * limits (if any) pass and hold its instance, the request names the object by
    * identifier or by name, and the object is registered under that key; the I-Have
    * carries the object's identifier and name. */
  lemma DoWhoHasRequestSpec(device: Option<DeviceView>, app: App.AppFields, apdu: WhoHasApdu)
    ensures device.None? ==> DoWhoHasRequest(device, app, apdu) == Ok(None)
    ensures device.Some? ==>
      var r := DoWhoHasRequest(device, app, apdu);
      var inRange := apdu.limits.None? ||
        Within(device.value.objectIdentifier.instance, apdu.limits.value.low, apdu.limits.value.high);
      (apdu.limits.Some? && WhoHasLimits(apdu.limits.value).Err? ==> r == Err(WhoHasLimits(apdu.limits.value).error)) &&
      (apdu.limits.Some? && WhoHasLimits(apdu.limits.value).Ok? && !inRange ==> r == Ok(None)) &&
      ((apdu.limits.None? || WhoHasLimits(apdu.limits.value).Ok?) && inRange ==>
        (apdu.target.objectIdentifier.None? && apdu.target.objectName.None? ==> r == Err(InconsistentParameters)) &&
        (apdu.target.objectIdentifier.Some? ==>
          r == Ok(if apdu.target.objectIdentifier in app.ids
                  then Some(IHaveRequest(device.value.objectIdentifier,
                    app.ids[apdu.target.objectIdentifier].objectIdentifier,
                    app.ids[apdu.target.objectIdentifier].objectName, Destination(apdu.source)))
                  else None)) &&
        (apdu.target.objectIdentifier.None? && apdu.target.objectName.Some? ==>
          r == Ok(if apdu.target.objectName in app.names
                  then Some(IHaveRequest(device.value.objectIdentifier,
                    app.names[apdu.target.objectName].objectIdentifier,
                    app.names[apdu.target.objectName].objectName, Destination(apdu.source)))
                  else None)))
  {
  }

  /** In a registry whose dictionaries index their objects, the I-Have names the very
    * object the Who-Has asked for. */
  lemma WhoHasFindsAskedObject(device: Option<DeviceView>, app: App.AppFields, apdu: WhoHasApdu)
    requires App.Indexed(app)
    ensures var r := DoWhoHasRequest(device, app, apdu);
      r.Ok? && r.value.Some? ==>
        (apdu.target.objectIdentifier.Some? ==> r.value.value.objectIdentifier == apdu.target.objectIdentifier) &&
        (apdu.target.objectIdentifier.None? ==> r.value.value.objectName == apdu.target.objectName)
  {
  }

  /** An I-Have is accepted exactly when its three parameters are present. */
  lemma DoIHaveRequestSpec(apdu: IHaveApdu)
    ensures var r := DoIHaveRequest(apdu);
      (r.Ok? <==> apdu.deviceIdentifier.Some? && apdu.objectIdentifier.Some? && apdu.objectName.Some?) &&
      (r.Err? ==> r.error == MissingRequiredParameter)
  {
  }

  // ---------------------------------------------------------------------------------
  // Device Communication Control
  // ---------------------------------------------------------------------------------

  /** A request refused for its password changes nothing; one that passes sets the value
    * asked for, cancels any scheduled re-enable, and schedules a new one after the given
    * minutes exactly when communication is disabled for a time. */
  lemma DccStepSpec(f: DccFields, devicePassword: Option<string>, req: DccRequest)
    ensures var (r, g) := DccStep(f, devicePassword, req);
      (r.Err? <==> TextGiven(devicePassword) && req.password != devicePassword) &&
      (r.Err? ==> r.error == ExecutionError("security", "passwordFailure") && g == f) &&
      (r.Ok? ==>
        r.value == f.handle && g.dcc == req.enableDisable &&
        (g.handle.Some? <==> req.enableDisable != StateMachineAp.Enable && DurationGiven(req.timeDuration)) &&
        (g.handle.Some? ==> g.handle.value.delay == 60 * req.timeDuration.value))
  {
  }

  /** Without a device password every request is acknowledged; an enable request always
    * leaves communication enabled with nothing scheduled. */
  lemma DccEnable(f: DccFields, devicePassword: Option<string>, req: DccRequest)
    requires req.enableDisable == StateMachineAp.Enable
    requires !PasswordRefused(devicePassword, req)
    ensures DccStep(f, devicePassword, req) == (Ok(f.handle), DccFields(StateMachineAp.Enable, None))
  {
  }

  /** A timed disable is undone by its scheduled task: when it fires, communication is
    * enabled again and nothing is left scheduled. */
  lemma TimedDisableExpires(f: DccFields, devicePassword: Option<string>, req: DccRequest)
    requires req.enableDisable != StateMachineAp.Enable && DurationGiven(req.timeDuration)
    requires !PasswordRefused(devicePassword, req)
    ensures var (r, g) := DccStep(f, devicePassword, req);
      r.Ok? && g.dcc == req.enableDisable && g.handle == Some(EnableTask(req.timeDuration.value * 60)) &&
      SetStep(g, StateMachineAp.Enable) == (DccFields(StateMachineAp.Enable, None), g.handle)
  {
  }

  /** As written, a timed disable leaves a handle that the re-enable cannot cancel: when it
    * fires it raises, the handle stays, and every later request raises too, after changing
    * the value. */
  lemma TimedDisableAsWritten(f: DccFields, req: DccRequest, later: DccRequest)
    requires f.handle.None?
    requires req.enableDisable == StateMachineAp.Disable && DurationGiven(req.timeDuration)
    ensures var (r, g) := DccStepAsWritten(f, None, req);
      r.Ok? && g.handle.Some? &&
      SetStepAsWritten(g, StateMachineAp.Enable) == (Err(AttributeError), g.(dcc := StateMachineAp.Enable)) &&
      var (r2, h) := DccStepAsWritten(SetStepAsWritten(g, StateMachineAp.Enable).1, None, later);
      r2 == Err(AttributeError) && h.handle == g.handle
  {
  }

  /** Where nothing is scheduled, the as-written request agrees with the intended one. */
  lemma DccAsWrittenAgrees(f: DccFields, devicePassword: Option<string>, req: DccRequest)
    requires f.handle.None?
    ensures DccStepAsWritten(f, devicePassword, req).1 == DccStep(f, devicePassword, req).1
    ensures DccStepAsWritten(f, devicePassword, req).0.Ok? <==> DccStep(f, devicePassword, req).0.Ok?
  {
  }
}
