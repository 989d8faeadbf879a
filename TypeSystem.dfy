/**
 * The type-system draft: field descriptors with optional accessor closures,
 * type objects that point at their own type and at their supertypes, the
 * bootstrap of the mutually referring `type` and `obj` types, and the
 * registry of built-in types keyed by name.
 */
module TypeSystem {
  import opened Wrappers
  import opened MObjects

  /**
   * `ObjField`: a named field whose reads and writes go through closures; a
   * missing closure makes the field unreadable or unwritable. The closures
   * are opaque here.
   */
  datatype ObjField = ObjField(
    name: string,
    docstring: Option<string>,
    getter: Option<() -> Result<MObj, MObj>>,
    setter: Option<MObj -> Result<MObj, MObj>>)

  /** `ObjField::new`. */
  function NewObjField(name: string, docstring: Option<string>, getter: Option<() -> Result<MObj, MObj>>, setter: Option<MObj -> Result<MObj, MObj>>): (f: ObjField)
    ensures f.name == name && f.docstring == docstring && f.getter == getter && f.setter == setter
  {
    ObjField(name, docstring, getter, setter)
  }

  function CanRead(f: ObjField): (r: bool)
    ensures r <==> f.getter.Some?
  {
    f.getter.Some?
  }

  function CanWrite(f: ObjField): (r: bool)
    ensures r <==> f.setter.Some?
  {
    f.setter.Some?
  }

  /**
   * The accessors report what the field was built from: its name and
   * docstring unchanged, readable exactly when a getter was given,
   * writable exactly when a setter was given.
   */
  lemma FieldAccessors(name: string, doc: Option<string>, getter: Option<() -> Result<MObj, MObj>>, setter: Option<MObj -> Result<MObj, MObj>>)
    ensures var f := NewObjField(name, doc, getter, setter);
      f.name == name && f.docstring == doc && (CanRead(f) <==> getter.Some?) && (CanWrite(f) <==> setter.Some?)
  {
  }

  /** `MTypeImpl`: a type object, edited in place while the base types are wired together. */
  class MType {
    var name: string
    var objtype: Option<MType>
    var supertypes: seq<MType>
    var protoDict: map<string, ObjField>
    var instDict: map<string, ObjField>

    /** A type with the given name, type and supertypes, and no fields yet. */
    constructor (name: string, objtype: Option<MType>, supertypes: seq<MType>)
      ensures this.name == name && this.objtype == objtype && this.supertypes == supertypes
      ensures protoDict == map[] && instDict == map[]
    {
      this.name := name;
      this.objtype := objtype;
      this.supertypes := supertypes;
      protoDict := map[];
      instDict := map[];
    }

    function Name(): (r: string)
      reads this
      ensures r == name
    {
      name
    }

    function Supertypes(): (r: seq<MType>)
      reads this
      ensures r == supertypes
    {
      supertypes
    }
  }

  /** `obj` and `type` as `init_base_types` leaves them. */
  ghost predicate BaseTypes(typeType: MType, objectType: MType)
    reads typeType, objectType
  {
    typeType != objectType &&
    typeType.name == "type" && typeType.objtype == Some(typeType) && typeType.supertypes == [objectType] &&
    objectType.name == "obj" && objectType.objtype == Some(typeType) && objectType.supertypes == [] &&
    typeType.protoDict == map[] && typeType.instDict == map[] &&
    objectType.protoDict == map[] && objectType.instDict == map[]
  }

  /** `create_object_type(type_type)` of the bootstrap: `obj`, typed by the given type, with no supertypes. */
  method CreateObjectTypeFor(typeType: MType) returns (objectType: MType)
    ensures fresh(objectType)
    ensures objectType.name == "obj" && objectType.objtype == Some(typeType) && objectType.supertypes == []
    ensures objectType.protoDict == map[] && objectType.instDict == map[]
  {
    objectType := new MType("obj", Some(typeType), []);
  }

  /**
   * `init_base_types`: `type` is made first with no type and no
   * supertypes, `obj` is made with `type` as its type, then `obj` is pushed
   * onto `type`'s supertypes and `type` becomes its own type.
   */
  method InitBaseTypes() returns (typeType: MType, objectType: MType)
    ensures fresh(typeType) && fresh(objectType)
    ensures BaseTypes(typeType, objectType)
  {
    typeType := new MType("type", Option.None, []);
    objectType := CreateObjectTypeFor(typeType);
    typeType.supertypes := typeType.supertypes + [objectType];
    typeType.objtype := Some(typeType);
  }

  /** The bootstrap closes the loop: the type of `type` is `type`, and the type of `obj` is too. */
  lemma TypeOfTypeIsType(typeType: MType, objectType: MType)
    requires BaseTypes(typeType, objectType)
    ensures typeType.objtype.Some? && typeType.objtype.value == typeType
    ensures objectType.objtype == Some(typeType)
    ensures typeType.Supertypes() == [objectType] && objectType.Supertypes() == []
  {
  }

  /** `create_object_type()` of the registry: `obj` with no type and no supertypes. */
  method CreateObjectType() returns (objectType: MType)
    ensures fresh(objectType)
    ensures objectType.name == "obj" && objectType.objtype.None? && objectType.supertypes == []
    ensures objectType.protoDict == map[] && objectType.instDict == map[]
  {
    objectType := new MType("obj", Option.None, []);
  }

  /** Registering `t` under `name`: last writer wins, other names untouched. */
  function Register<T>(types: map<string, T>, name: string, t: T): (r: map<string, T>)
    ensures name in r && r[name] == t
    ensures r.Keys == types.Keys + {name}
    ensures forall n | n in types && n != name :: r[n] == types[n]
  {
    types[name := t]
  }

  function Find<T>(types: map<string, T>, name: string): (r: Option<T>)
    ensures r.Some? <==> name in types
    ensures r.Some? ==> r.value == types[name]
  {
    if name in types then Some(types[name]) else Option.None
  }

  /**
   * `get_type` after `create_type`: the name just registered finds the new
   * type, whatever it was registered to before, and every other name finds
   * what it found before.
   */
  lemma FindAfterRegister<T>(types: map<string, T>, name: string, t: T, other: string)
    ensures Find(Register(types, name, t), name) == Some(t)
    ensures other != name ==> Find(Register(types, name, t), other) == Find(types, other)
  {
  }

  /** `Builtins`: the registry of built-in types. */
  class Builtins {
    var types: map<string, MType>

    /** The registry starts empty. */
    constructor ()
      ensures types == map[]
    {
      types := map[];
    }

    /** `create_type`: the type is stored under its name. */
    method CreateType(t: MType)
      modifies this
      ensures types == Register(old(types), t.name, t)
    {
      types := Register(types, t.name, t);
    }

    /** `get_type`: the type registered under the name, if any. */
    function GetType(name: string): (r: Option<MType>)
      reads this
      ensures r == Find(types, name)
    {
      Find(types, name)
    }
  }

  /**
   * `create_type_type`: "type", with no type of its own and, as its one
   * supertype, the type registered as "obj", when there is one.
   */
  method CreateTypeType(b: Builtins) returns (t: Option<MType>)
    ensures b.GetType("obj").None? <==> t.None?
    ensures t.Some? ==>
      fresh(t.value) && t.value.name == "type" && t.value.objtype.None? &&
      t.value.supertypes == [b.GetType("obj").value] && t.value.protoDict == map[] && t.value.instDict == map[]
  {
    var obj := b.GetType("obj");
    if obj.None? {
      return Option.None;
    }
    var tt := new MType("type", Option.None, [obj.value]);
    t := Some(tt);
  }

  /**
   * `init_type_system`: "obj", then "type", then the `none` type (built
   * elsewhere and passed in). Because "obj" is registered first, "type"
   * finds it as its supertype. The two types it makes are returned so that
   * the contract can name them.
   */
  method InitTypeSystem(b: Builtins, noneType: MType) returns (objectType: MType, typeType: MType)
    modifies b
    ensures fresh(objectType) && fresh(typeType)
    ensures b.types == old(b.types)["obj" := objectType]["type" := typeType][noneType.name := noneType]
    ensures objectType.name == "obj" && objectType.objtype.None? && objectType.supertypes == []
    ensures typeType.name == "type" && typeType.objtype.None? && typeType.supertypes == [objectType]
  {
    objectType := CreateObjectType();
    b.CreateType(objectType);
    var t := CreateTypeType(b);
    typeType := t.value;
    b.CreateType(typeType);
    b.CreateType(noneType);
  }
}
