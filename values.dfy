/**
 * The entities of the reference-splitting pickle codec (mlem/contrib/callable.py):
 * objects of the graph, codec instances and their classes, the pickle stream with
 * its placeholders, artifacts, storage, and the external collaborators
 * (analyzer hooks, the analyzer itself, the specialised codecs, the importable
 * modules) bundled as a Runtime.
 */
module Values {

  datatype Option<T> = None | Some(value: T)

  /** The exceptions the core raises or lets through, by kind. */
  datatype Error =
    | MissingKey(key: string)       // KeyError: dict lookup of an absent key
    | BadName(name: string)         // ValueError: a data artifact name without "_"
    | EmptyModuleName               // ValueError: import_module("")
    | ModuleNotFound(moduleName: string) // ImportError
    | Undecodable                   // the descriptor blob is not text
    | MissingFile                   // storage has nothing at the artifact's path
    | NotAStream                    // the root blob is not a pickle stream
    | CodecFailed(cls: CodecClass)  // a specialised codec's load raised

  datatype Result<T> = Ok(value: T) | Err(error: Error)

  /** Name of a Python type. */
  type TypeName = string

  /** A uuid4 string standing for an intercepted sub-object. */
  type Token = string

  type byte = b: int | 0 <= b < 256

  /** A storage path as its components: posixpath.join(p, n) is p + [n]. */
  type Path = seq<string>

  /**
   * An object of the graph: the names of its type and of all its base classes
   * (what isinstance consults), and an identity.
   */
  datatype Obj = Obj(classes: set<TypeName>, id: nat)

  /** A codec class, by its __module__ and __name__. */
  datatype CodecClass = CodecClass(moduleName: string, name: string)

  /** A ModelIO instance: its class, that class's bases, and its field values. */
  datatype Codec = Codec(cls: CodecClass, bases: set<CodecClass>, fields: map<string, string>)

  /** isinstance(io, c) */
  predicate IsInstance(io: Codec, c: CodecClass) {
    io.cls == c || c in io.bases
  }

  /** One element of the generic pickle stream: an object pickled in line, or a persistent id. */
  datatype Item = Leaf(obj: Obj) | Placeholder(pid: Token)

  /** What a storage path holds: a pickle stream, text, or raw bytes. */
  datatype Blob = Pickled(stream: seq<Item>) | Text(text: string) | Bytes(data: seq<byte>)

  type Storage = map<Path, Blob>

  /** Artifacts: artifact name to the handle (the path) it was written at. */
  type Artifacts = map<string, Path>

  /** One entry of the pickler's refs dict: token -> (io, obj). */
  datatype RefEntry = RefEntry(token: Token, io: Codec, obj: Obj)

  /** A hook of ModelAnalyzer.hooks: whether it is a CallableModelType, and its valid_types. */
  datatype Hook = Hook(isCallableModelType: bool, validTypes: Option<seq<TypeName>>)

  /** ModelAnalyzer.analyze(obj).io, or the ValueError it raises for a non-model. */
  datatype Analysis = ModelOf(io: Codec) | NotAModel

  /** Importable modules: module name to its __dict__ of codec classes, each as its default instance. */
  type Modules = map<string, map<string, Codec>>

  /**
   * The dump and load of the specialised codecs: dump gives the blobs of the
   * codec's own artifacts, by name, in the order it writes them; load gets the
   * blobs of the artifacts it is handed.
   */
  datatype Codecs = Codecs(dump: (Codec, Obj) -> seq<(string, Blob)>, load: (Codec, map<string, Blob>) -> Option<Obj>)

  /** The collaborators the core consults. */
  datatype Runtime = Runtime(hooks: seq<Hook>, analyze: Obj -> Analysis, codecs: Codecs, modules: Modules)

  /** PickleModelIO.file_name */
  const FileName: string := "data.pkl"

  /** PickleModelIO.io_ext */
  const IoExt: string := ".io"

  /** The separator between a token and a sub-artifact name. */
  const Sep: char := '_'

  const PickleModelIOClass := CodecClass("mlem.contrib.callable", "PickleModelIO")

  const SimplePickleIOClass := CodecClass("mlem.core.model", "SimplePickleIO")
}
