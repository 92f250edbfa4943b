/**
 * The codec descriptor: PickleModelIO._serialize_io writes a codec's class as
 * "module.ClassName"; _deserialize_io splits that text on its dots, imports the
 * module named by all pieces but the last and instantiates the class named by the
 * last one. Importing is a lookup in a registry of modules.
 */
module Descriptor {
  import opened Values
  import opened Text

  /** "module.ClassName" for a codec class. */
  function Identity(cls: CodecClass): string {
    cls.moduleName + "." + cls.name
  }

  /**
   * _serialize_io: the descriptor blob of a codec instance, the text of its class
   * identity, from which a well-named class's module and class names parse back.
   */
  function SerializeIo(io: Codec): (r: Blob)
    ensures r.Text?
    ensures WellNamed(io.cls) ==> ParseIdentity(r.text) == Ok((io.cls.moduleName, io.cls.name))
  {
    if WellNamed(io.cls) then
      ParseIdentityOfIdentity(io.cls);
      Text(Identity(io.cls))
    else
      Text(Identity(io.cls))
  }

  /**
   * The split of an identity into module name and class name: every piece but the
   * last, joined by dots, and the last piece; an empty module name is refused as
   * import_module("") refuses it.
   */
  function ParseIdentity(s: string): (r: Result<(string, string)>)
    ensures r.Ok? ==> r.value.0 != "" && '.' !in r.value.1 && s == r.value.0 + "." + r.value.1
    ensures r.Err? ==> r.error == EmptyModuleName
  {
    var parts := Split(s, '.');
    var moduleName := Join(parts[..|parts| - 1], '.');
    if moduleName == "" then
      Err(EmptyModuleName)
    else
      JoinSplit(s, '.');
      JoinLast(parts, '.');
      SplitLastFree(s, '.');
      Ok((moduleName, parts[|parts| - 1]))
  }

  /** A class name holds no dot and its module name is not empty, as for every Python class. */
  predicate WellNamed(cls: CodecClass) {
    cls.moduleName != "" && '.' !in cls.name
  }

  /** import_module(module).__dict__[name](): the default instance of a registered class. */
  function Resolve(cls: CodecClass, modules: Modules): (r: Result<Codec>)
    ensures r.Ok? <==> cls.moduleName != "" && cls.moduleName in modules && cls.name in modules[cls.moduleName]
  {
    if cls.moduleName == "" then Err(EmptyModuleName)
    else if cls.moduleName !in modules then Err(ModuleNotFound(cls.moduleName))
    else if cls.name !in modules[cls.moduleName] then Err(MissingKey(cls.name))
    else Ok(modules[cls.moduleName][cls.name])
  }

  /**
   * _deserialize_io: decode the blob, parse the identity, resolve the class. A codec
   * comes back only from text that is the identity of a well-named class the
   * registry holds, and it is that class's registered instance.
   */
  function DeserializeIo(b: Blob, modules: Modules): (r: Result<Codec>)
    ensures !b.Text? ==> r == Err(Undecodable)
    ensures r.Ok? ==> b.Text? && exists cls :: WellNamed(cls) && b.text == Identity(cls) && Resolve(cls, modules) == r
  {
    match b
    case Text(s) =>
      (match ParseIdentity(s)
       case Ok(names) =>
         var cls := CodecClass(names.0, names.1);
         assert WellNamed(cls) && s == Identity(cls);
         Resolve(cls, modules)
       case Err(e) => Err(e))
    case _ => Err(Undecodable)
  }

  /** Parsing an identity written by Identity gives back its two names. */
  lemma ParseIdentityOfIdentity(cls: CodecClass)
    requires WellNamed(cls)
    ensures ParseIdentity(Identity(cls)) == Ok((cls.moduleName, cls.name))
  {
    var s := Identity(cls);
    SplitAppend(cls.moduleName, cls.name, '.');
    var parts := Split(s, '.');
    assert parts[..|parts| - 1] == Split(cls.moduleName, '.');
    JoinSplit(cls.moduleName, '.');
  }

  /** Reading back a descriptor resolves the very class it was written for. */
  lemma DescriptorRoundTrip(io: Codec, modules: Modules)
    requires WellNamed(io.cls)
    ensures DeserializeIo(SerializeIo(io), modules) == Resolve(io.cls, modules)
  {
    ParseIdentityOfIdentity(io.cls);
  }

  /** Every registered class is registered under its own module and name. */
  ghost predicate ConsistentRegistry(modules: Modules) {
    forall m, n :: m in modules && n in modules[m] ==> modules[m][n].cls == CodecClass(m, n)
  }

  /**
   * With a consistent registry holding the class, reading back a descriptor yields
   * an instance of the same codec class.
   */
  lemma ReloadsSameClass(io: Codec, modules: Modules)
    requires WellNamed(io.cls) && ConsistentRegistry(modules)
    requires io.cls.moduleName in modules && io.cls.name in modules[io.cls.moduleName]
    ensures DeserializeIo(SerializeIo(io), modules).Ok?
    ensures DeserializeIo(SerializeIo(io), modules).value.cls == io.cls
  {
    DescriptorRoundTrip(io, modules);
  }
}
