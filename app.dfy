/** The application object registry and service dispatch (`bacpypes/app/app.py`): local
  * objects are kept in two dictionaries, by name and by identifier, and the local device's
  * object list follows them; an inbound request is handed to the helper of its service. */
module App {
  import opened Wrappers
  import opened Seqs

  /** `ObjectIdentifier.maximum_instance_number`: the 22-bit instance field of an object
    * identifier (ASHRAE 135 clause 20.2.14), all ones. */
  const MaximumInstanceNumber: int := 0x3FFFFF

  /** An object identifier `(objectType, instance)`. */
  datatype ObjectId = ObjectId(objType: string, instance: int)

  /** What the registry reads of a local object: its name and identifier properties,
    * either of which may be missing. */
  datatype LocalObject = LocalObject(objectName: Option<string>, objectIdentifier: Option<ObjectId>)

  /** The local device: its own object, and its `objectList` property when it has one. */
  datatype LocalDevice = LocalDevice(device: LocalObject, objectList: Option<seq<ObjectId>>)

  /** The registry state: `objectName`, `objectIdentifier` and `localDevice`. The dictionary
    * keys are the objects' property values, so a missing one is a `None` key. */
  datatype AppFields = AppFields(
    names: map<Option<string>, LocalObject>,
    ids: map<Option<ObjectId>, LocalObject>,
    localDevice: Option<LocalDevice>)

  /** Python truthiness of an object name: `None` and the empty string are false. */
  predicate NameGiven(name: Option<string>)
  {
    name.Some? && name.value != []
  }

  /** `self.localDevice and self.localDevice.objectList`: a device whose object list is
    * present and not empty. */
  predicate KeepsList(d: Option<LocalDevice>)
  {
    d.Some? && d.value.objectList.Some? && |d.value.objectList.value| > 0
  }

  /** Every object is filed under its own name and its own identifier, and the two
    * dictionaries hold the same objects. */
  predicate Indexed(f: AppFields)
  {
    (forall k :: k in f.names ==>
      f.names[k].objectName == k && f.names[k].objectIdentifier in f.ids &&
      f.ids[f.names[k].objectIdentifier] == f.names[k]) &&
    (forall k :: k in f.ids ==>
      f.ids[k].objectIdentifier == k && f.ids[k].objectName in f.names &&
      f.names[f.ids[k].objectName] == f.ids[k])
  }

  /** The object is the one filed under its name. */
  predicate Registered(f: AppFields, obj: LocalObject)
  {
    obj.objectName in f.names && f.names[obj.objectName] == obj
  }

  /** The checks of `add_object`, in order: a name, an identifier, an instance below the
    * maximum, neither already taken. */
  function AddCheck(f: AppFields, obj: LocalObject): Result<()>
  {
    if !NameGiven(obj.objectName) then Err(RuntimeError)
    else if obj.objectIdentifier.None? then Err(RuntimeError)
    else if obj.objectIdentifier.value.instance >= MaximumInstanceNumber then Err(RuntimeError)
    else if obj.objectName in f.names then Err(RuntimeError)
    else if obj.objectIdentifier in f.ids then Err(RuntimeError)
    else Ok(())
  }

  /** `add_object` as written: with no local device the attribute `localDevice` was never
    * set, so after both dictionaries are updated the object list test raises. */
  function AddObjectAsWritten(f: AppFields, obj: LocalObject): (Result<()>, AppFields)
  {
    if AddCheck(f, obj).Err? then (AddCheck(f, obj), f)
    else
      var g := f.(names := f.names[obj.objectName := obj], ids := f.ids[obj.objectIdentifier := obj]);
      if f.localDevice.None? then (Err(AttributeError), g)
      else (Ok(()), g.(localDevice := Appended(f.localDevice, obj.objectIdentifier.value)))
  }

  /** The device's object list with `id` appended, when it keeps one. */
  function Appended(d: Option<LocalDevice>, id: ObjectId): Option<LocalDevice>
  {
    if KeepsList(d) then Some(d.value.(objectList := Some(d.value.objectList.value + [id]))) else d
  }

  /** `add_object` with no local device treated as a device without an object list. */
  function AddObjectStep(f: AppFields, obj: LocalObject): (Result<()>, AppFields)
  {
    if AddCheck(f, obj).Err? then (AddCheck(f, obj), f)
    else
      (Ok(()), AppFields(f.names[obj.objectName := obj], f.ids[obj.objectIdentifier := obj],
                         Appended(f.localDevice, obj.objectIdentifier.value)))
  }

  /** The end of `delete_object`: the identifier is looked up in the object list (ValueError
    * when absent, `None` included) and its first occurrence deleted. */
  function Unlisted(d: LocalDevice, id: Option<ObjectId>): Result<LocalDevice>
    requires d.objectList.Some?
  {
    var list := d.objectList.value;
    if id.None? || IndexOf(list, id.value) == -1 then Err(ValueError)
    else
      var i := IndexOf(list, id.value);
      Ok(d.(objectList := Some(list[..i] + list[i + 1..])))
  }

  /** `delete_object` as written: with no local device, both dictionary entries are gone
    * when the object list test raises. */
  function DeleteObjectAsWritten(f: AppFields, obj: LocalObject): (Result<()>, AppFields)
  {
    if obj.objectName !in f.names then (Err(KeyError), f)
    else
      var f1 := f.(names := f.names - {obj.objectName});
      if obj.objectIdentifier !in f1.ids then (Err(KeyError), f1)
      else
        var f2 := f1.(ids := f1.ids - {obj.objectIdentifier});
        if f2.localDevice.None? then (Err(AttributeError), f2)
        else DeleteListed(f2, obj)
  }

  function DeleteListed(f2: AppFields, obj: LocalObject): (Result<()>, AppFields)
  {
    if !KeepsList(f2.localDevice) then (Ok(()), f2)
    else match Unlisted(f2.localDevice.value, obj.objectIdentifier)
      case Err(e) => (Err(e), f2)
      case Ok(d) => (Ok(()), f2.(localDevice := Some(d)))
  }

  /** `delete_object`: each `del` raises KeyError for a missing key, after what came before
    * it was done; no local device is treated as one without an object list. */
  function DeleteObjectStep(f: AppFields, obj: LocalObject): (Result<()>, AppFields)
  {
    if obj.objectName !in f.names then (Err(KeyError), f)
    else
      var f1 := f.(names := f.names - {obj.objectName});
      if obj.objectIdentifier !in f1.ids then (Err(KeyError), f1)
      else DeleteListed(f1.(ids := f1.ids - {obj.objectIdentifier}), obj)
  }

  /** The local objects and the local device, as `Application.__init__` files them. */
  function InitialFields(localDevice: Option<LocalDevice>): (f: AppFields)
    ensures Indexed(f)
    ensures localDevice.Some? ==> Registered(f, localDevice.value.device)
    ensures localDevice.None? ==> f.names == map[] && f.ids == map[]
  {
    match localDevice
    case None => AppFields(map[], map[], None)
    case Some(d) =>
      AppFields(map[d.device.objectName := d.device], map[d.device.objectIdentifier := d.device], localDevice)
  }

  /** What a helper did with a request: returned, or raised an exception. */
  type HelperOutcome = Result<()>

  /** What `indication` does with an inbound request: raise, send back nothing, or send
    * back an Error PDU with a class and a code. */
  datatype Answer = NoAnswer | ErrorPdu(errorClass: string, errorCode: string)

  /** The exceptions that are `RejectException`s: the class itself and the four subclasses
    * the service helpers raise. */
  predicate IsReject(e: Error)
  {
    e == RejectException || e == MissingRequiredParameter || e == ParameterOutOfRange ||
    e == InconsistentParameters || e == UnrecognizedService
  }

  /** `indication`: `helper` is the outcome of the `do_<service>` helper, `None` when the
    * application has none. A rejection or an abort is raised again, so only those escape;
    * an unconfirmed request is never answered. */
  function Indication(confirmed: bool, helper: Option<HelperOutcome>): (r: Result<Answer>)
    ensures r.Err? ==> IsReject(r.error) || r.error == AbortException
    ensures !confirmed && r.Ok? ==> r.value == NoAnswer
  {
    match helper
    case None => if confirmed then Err(UnrecognizedService) else Ok(NoAnswer)
    case Some(Ok(_)) => Ok(NoAnswer)
    case Some(Err(e)) =>
      if IsReject(e) || e == AbortException then Err(e)
      else if !confirmed then Ok(NoAnswer)
      else if e.ExecutionError? then Ok(ErrorPdu(e.errorClass, e.errorCode))
      else Ok(ErrorPdu("device", "operationalProblem"))
  }

  /** The registry of one application. */
  class Application {
    var objectName: map<Option<string>, LocalObject>
    var objectIdentifier: map<Option<ObjectId>, LocalObject>
    var localDevice: Option<LocalDevice>

    function Fields(): AppFields
      reads this
    {
      AppFields(objectName, objectIdentifier, localDevice)
    }

    /** The local device, when given, is filed under its name and identifier. */
    constructor(localDevice: Option<LocalDevice>)
      ensures Fields() == InitialFields(localDevice)
    {
      var f := InitialFields(localDevice);
      objectName := f.names;
      objectIdentifier := f.ids;
      this.localDevice := localDevice;
    }

    method AddObject(obj: LocalObject) returns (r: Result<()>)
      modifies this
      ensures (r, Fields()) == AddObjectStep(old(Fields()), obj)
    {
      var name := obj.objectName;
      if !NameGiven(name) {
        return Err(RuntimeError);
      }
      var id := obj.objectIdentifier;
      if id.None? {
        return Err(RuntimeError);
      }
      if id.value.instance >= MaximumInstanceNumber {
        return Err(RuntimeError);
      }
      if name in objectName || id in objectIdentifier {
        return Err(RuntimeError);
      }
      objectName := objectName[name := obj];
      objectIdentifier := objectIdentifier[id := obj];
      if KeepsList(localDevice) {
        var d := localDevice.value;
        localDevice := Some(d.(objectList := Some(d.objectList.value + [id.value])));
      }
      r := Ok(());
    }

    method DeleteObject(obj: LocalObject) returns (r: Result<()>)
      modifies this
      ensures (r, Fields()) == DeleteObjectStep(old(Fields()), obj)
    {
      if obj.objectName !in objectName {
        return Err(KeyError);
      }
      objectName := objectName - {obj.objectName};
      if obj.objectIdentifier !in objectIdentifier {
        return Err(KeyError);
      }
      objectIdentifier := objectIdentifier - {obj.objectIdentifier};
      r := Ok(());
      if KeepsList(localDevice) {
        var d := Unlisted(localDevice.value, obj.objectIdentifier);
        if d.Err? {
          r := Err(d.error);
        } else {
          localDevice := Some(d.value);
        }
      }
    }

    /** `get_object_id`: the object filed under an identifier, or `None`. */
    function GetObjectId(id: Option<ObjectId>): (r: Option<LocalObject>)
      reads this
      ensures r.Some? <==> id in objectIdentifier
      ensures r.Some? ==> r.value == objectIdentifier[id]
    {
      if id in objectIdentifier then Some(objectIdentifier[id]) else None
    }

    /** `get_object_name`: the object filed under a name, or `None`. */
    function GetObjectName(name: Option<string>): (r: Option<LocalObject>)
      reads this
      ensures r.Some? <==> name in objectName
      ensures r.Some? ==> r.value == objectName[name]
    {
      if name in objectName then Some(objectName[name]) else None
    }
  }
}

/** What the registry and the dispatch promise. */
module AppProperties {
  import opened Wrappers
  import opened Seqs
  import opened App

  /** `add_object` accepts exactly a named, identified object with instance below the
    * maximum whose name and identifier are both free; a refusal is a RuntimeError that
    * changes nothing; an accepted object is filed under both keys and its identifier
    * appended to the device's object list when there is a non-empty one. */
  lemma AddObjectSpec(f: AppFields, obj: LocalObject)
    ensures var (r, g) := AddObjectStep(f, obj);
      (r.Ok? <==> NameGiven(obj.objectName) && obj.objectIdentifier.Some? &&
                  obj.objectIdentifier.value.instance < MaximumInstanceNumber &&
                  obj.objectName !in f.names && obj.objectIdentifier !in f.ids) &&
      (r.Err? ==> r.error == RuntimeError && g == f) &&
      (r.Ok? ==> Registered(g, obj) && obj.objectIdentifier in g.ids && g.ids[obj.objectIdentifier] == obj &&
                 (forall k :: k in f.names ==> k in g.names && g.names[k] == f.names[k]) &&
                 (forall k :: k in f.ids ==> k in g.ids && g.ids[k] == f.ids[k]) &&
                 |g.names| == |f.names| + 1 && |g.ids| == |f.ids| + 1 &&
                 (KeepsList(f.localDevice) ==>
                   g.localDevice.value.objectList.value == f.localDevice.value.objectList.value + [obj.objectIdentifier.value]) &&
                 (!KeepsList(f.localDevice) ==> g.localDevice == f.localDevice))
  {
  }

  /** Adding keeps every object filed under its own name and identifier. */
  lemma AddKeepsIndexed(f: AppFields, obj: LocalObject)
    requires Indexed(f)
    ensures Indexed(AddObjectStep(f, obj).1)
  {
    var (r, g) := AddObjectStep(f, obj);
    if r.Ok? {
      forall k | k in g.names
        ensures g.names[k].objectName == k && g.names[k].objectIdentifier in g.ids &&
                g.ids[g.names[k].objectIdentifier] == g.names[k]
      {
        if k != obj.objectName {
          assert f.names[k].objectIdentifier != obj.objectIdentifier;
        }
      }
      forall k | k in g.ids
        ensures g.ids[k].objectIdentifier == k && g.ids[k].objectName in g.names &&
                g.names[g.ids[k].objectName] == g.ids[k]
      {
        if k != obj.objectIdentifier {
          assert f.ids[k].objectName != obj.objectName;
        }
      }
    }
  }

  /** Deleting a registered object from an indexed registry removes exactly its two
    * entries, keeps the registry indexed, and takes the first occurrence of its
    * identifier out of a non-empty object list (ValueError when it is not listed). */
  lemma DeleteRegistered(f: AppFields, obj: LocalObject)
    requires Indexed(f) && Registered(f, obj)
    ensures var (r, g) := DeleteObjectStep(f, obj);
      g.names == f.names - {obj.objectName} && g.ids == f.ids - {obj.objectIdentifier} &&
      Indexed(g) &&
      (!KeepsList(f.localDevice) ==> r == Ok(()) && g.localDevice == f.localDevice) &&
      (KeepsList(f.localDevice) ==>
        var list := f.localDevice.value.objectList.value;
        (r.Ok? <==> obj.objectIdentifier.Some? && obj.objectIdentifier.value in list) &&
        (r.Err? ==> r.error == ValueError && g.localDevice == f.localDevice) &&
        (r.Ok? ==> multiset(g.localDevice.value.objectList.value) + multiset{obj.objectIdentifier.value} == multiset(list)))
  {
    var (r, g) := DeleteObjectStep(f, obj);
    assert obj.objectIdentifier in f.ids;
    forall k | k in g.names
      ensures g.names[k].objectName == k && g.names[k].objectIdentifier in g.ids &&
              g.ids[g.names[k].objectIdentifier] == g.names[k]
    {
      assert f.names[k] != obj;
    }
    forall k | k in g.ids
      ensures g.ids[k].objectIdentifier == k && g.ids[k].objectName in g.names &&
              g.names[g.ids[k].objectName] == g.ids[k]
    {
      assert f.ids[k] != obj;
    }
    if KeepsList(f.localDevice) && r.Ok? {
      var list := f.localDevice.value.objectList.value;
      var i := IndexOf(list, obj.objectIdentifier.value);
      assert list == list[..i] + [list[i]] + list[i + 1..];
    }
  }

  /** Adding an object and deleting it again gives back both dictionaries, and the device's
    * object list holds the same identifiers as before. */
  lemma AddThenDelete(f: AppFields, obj: LocalObject)
    requires Indexed(f)
    requires AddObjectStep(f, obj).0.Ok?
    ensures var g := AddObjectStep(f, obj).1;
      var (r, h) := DeleteObjectStep(g, obj);
      r == Ok(()) && h.names == f.names && h.ids == f.ids &&
      (KeepsList(f.localDevice) ==> multiset(h.localDevice.value.objectList.value) == multiset(f.localDevice.value.objectList.value)) &&
      (!KeepsList(f.localDevice) ==> h.localDevice == f.localDevice)
  {
    var n, id := obj.objectName, obj.objectIdentifier;
    var g := AddObjectStep(f, obj).1;
    assert g.names == f.names[n := obj] && g.ids == f.ids[id := obj];
    var h := DeleteObjectStep(g, obj).1;
    assert h.names == f.names by {
      assert n !in f.names;
      assert f.names[n := obj] - {n} == f.names;
    }
    assert h.ids == f.ids by {
      assert id !in f.ids;
      assert f.ids[id := obj] - {id} == f.ids;
    }
    if KeepsList(f.localDevice) {
      RemoveAppended(f.localDevice.value.objectList.value, id.value);
    }
  }

  /** Taking the first `x` out of a list with `x` appended leaves the list's elements. */
  lemma RemoveAppended<T>(list: seq<T>, x: T)
    ensures var l := list + [x]; var i := IndexOf(l, x);
      0 <= i && multiset(l[..i] + l[i + 1..]) == multiset(list)
  {
    var l := list + [x];
    assert l[|list|] == x;
    var i := IndexOf(l, x);
    var a, b := l[..i], l[i + 1..];
    assert l == a + [x] + b;
    assert multiset(l) == multiset(a) + multiset{x} + multiset(b);
    assert multiset(l) == multiset(list) + multiset{x};
    assert multiset(a + b) == multiset(a) + multiset(b);
    assert multiset(a + b) == multiset(l) - multiset{x};
  }

  /** An added object is found again by its identifier and by its name. */
  lemma AddThenGet(app: Application, obj: LocalObject)
    requires AddObjectStep(app.Fields(), obj).0.Ok?
    ensures var g := AddObjectStep(app.Fields(), obj).1;
      obj.objectIdentifier in g.ids && g.ids[obj.objectIdentifier] == obj && Registered(g, obj)
  {
  }

  /** As written, an application made without a local device files a valid new object and
    * then raises AttributeError; the corrected step accepts it. */
  lemma AddWithoutDevice(f: AppFields, obj: LocalObject)
    requires f.localDevice.None? && AddCheck(f, obj).Ok?
    ensures var (r, g) := AddObjectAsWritten(f, obj);
      r == Err(AttributeError) && Registered(g, obj)
    ensures AddObjectStep(f, obj).0 == Ok(())
  {
  }

  /** As written, deleting a registered object of an application without a local device
    * removes both entries and then raises AttributeError; the corrected step succeeds. */
  lemma DeleteWithoutDevice(f: AppFields, obj: LocalObject)
    requires f.localDevice.None? && Indexed(f) && Registered(f, obj)
    ensures var (r, g) := DeleteObjectAsWritten(f, obj);
      r == Err(AttributeError) && obj.objectName !in g.names
    ensures DeleteObjectStep(f, obj).0 == Ok(())
  {
    assert obj.objectIdentifier in f.ids;
  }

  /** With a local device, the corrected steps are the code as written. */
  lemma WithDeviceAsWritten(f: AppFields, obj: LocalObject)
    requires f.localDevice.Some?
    ensures AddObjectAsWritten(f, obj) == AddObjectStep(f, obj)
    ensures DeleteObjectAsWritten(f, obj) == DeleteObjectStep(f, obj)
  {
  }

  /** `indication`: it raises exactly for a confirmed request without a helper
    * (UnrecognizedService) and for a helper's Reject or Abort; it answers only confirmed
    * requests, and then only when the helper raised something else, with the execution
    * error's class and code, or `device`/`operationalProblem` for any other exception. */
  lemma IndicationSpec(confirmed: bool, helper: Option<HelperOutcome>)
    ensures var r := Indication(confirmed, helper);
      var raised := helper.Some? && helper.value.Err? && (IsReject(helper.value.error) || helper.value.error == AbortException);
      (r.Err? <==> (helper.None? && confirmed) || raised) &&
      (r.Err? && helper.None? ==> r.error == UnrecognizedService) &&
      (r.Err? && helper.Some? ==> helper.value == Err(r.error)) &&
      (r.Ok? && r.value.ErrorPdu? <==> confirmed && helper.Some? && helper.value.Err? && !raised) &&
      (forall c, k :: helper == Some(Err(ExecutionError(c, k))) && confirmed ==> r == Ok(ErrorPdu(c, k))) &&
      (r.Ok? && r.value.ErrorPdu? && !helper.value.error.ExecutionError? ==>
        r.value == ErrorPdu("device", "operationalProblem"))
  {
  }
}
