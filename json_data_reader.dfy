/**
 * The fixture store `JsonDataReader`: a JSON fixture loaded lazily, once, and
 * looked up by dot paths such as "credentials.valid.email".
 */
module Fixtures {
  import opened Wrappers
  import opened Json
  import opened DotPath

  /** What a lookup hands back: scalars by value, objects and arrays as plain copies. */
  datatype Value =
    | Str(s: string)
    | Int(n: int)
    | Bool(b: bool)
    | Arr(items: seq<Json>)
    | Obj(fields: map<string, Json>)

  /** The JSON node a value stands for. */
  function ValueToJson(v: Value): Json
  {
    match v
    case Str(s) => JStr(s)
    case Int(n) => JInt(n)
    case Bool(b) => JBool(b)
    case Arr(items) => JArr(items)
    case Obj(fields) => JObj(fields)
  }

  /** Why loading the fixture file failed. */
  datatype LoadFailure =
    | FileNotFound   // the file does not exist
    | Malformed      // the text is not JSON, or its root is not an object

  /** The exceptions `GetValue` throws. */
  datatype Error =
    | ArgumentError                                         // ArgumentException: blank key path
    | LoadError(cause: LoadFailure)                         // InvalidOperationException from the loader
    | KeyNotFound(keyPath: string, key: string)             // KeyNotFoundException: a missing property
    | IndexError(failure: StepFailure)                      // the library's exception for an array or scalar
    | ConversionError(keyPath: string)                      // InvalidOperationException: a JSON null

  /** `char.IsWhiteSpace`: the Unicode white-space characters. */
  predicate IsWhiteSpace(c: char)
  {
    || '\U{0009}' <= c <= '\U{000D}'
    || c == ' ' || c == '\U{0085}' || c == '\U{00A0}' || c == '\U{1680}'
    || '\U{2000}' <= c <= '\U{200A}'
    || c == '\U{2028}' || c == '\U{2029}' || c == '\U{202F}' || c == '\U{205F}' || c == '\U{3000}'
  }

  /** `string.IsNullOrWhiteSpace`; `None` is a null reference. */
  predicate IsNullOrWhiteSpace(s: Option<string>)
  {
    s.None? || forall i :: 0 <= i < |s.value| ==> IsWhiteSpace(s.value[i])
  }

  /**
   * The value handed back for the node a walk reached: scalars as themselves,
   * objects and arrays as structurally equal copies, and nothing for a JSON null.
   */
  function Convert(node: Json): (r: Option<Value>)
    ensures r.None? <==> node.JNull?
    ensures r.Some? ==> ValueToJson(r.value) == node
  {
    match node
    case JNull => None
    case JBool(b) => Some(Bool(b))
    case JInt(n) => Some(Int(n))
    case JStr(s) => Some(Str(s))
    case JArr(items) => Some(Arr(items))
    case JObj(fields) => Some(Obj(fields))
  }

  /** The exception a failed step of the walk surfaces as. */
  function StepError(keyPath: string, f: StepFailure): Error
  {
    match f
    case MissingKey(key) => KeyNotFound(keyPath, key)
    case _ => IndexError(f)
  }

  /** What `GetValue(keyPath)` gives once the fixture `root` is loaded. */
  function Lookup(root: Json, keyPath: string): (r: Result<Value, Error>)
    ensures r.Failure? ==> !r.error.ArgumentError? && !r.error.LoadError?
    ensures r.Failure? && r.error.KeyNotFound? ==> r.error.keyPath == keyPath && r.error.key in Split(keyPath)
    ensures r.Success? ==> ValueToJson(r.value) != JNull
  {
    match Resolve(root, Split(keyPath))
    case Failure(f) => Failure(StepError(keyPath, f))
    case Success(node) =>
      match Convert(node)
      case None => Failure(ConversionError(keyPath))
      case Some(v) => Success(v)
  }

  /**
   * A successful lookup returns exactly the node reached by indexing the root with
   * each segment of the path in order, and never a JSON null.
   */
  lemma LookupReturnsReachedNode(root: Json, keyPath: string)
    requires Lookup(root, keyPath).Success?
    ensures var keys := Split(keyPath);
      && Walks(root, keys, Trail(root, keys))
      && ValueToJson(Lookup(root, keyPath).value) == Trail(root, keys)[|keys|]
      && Trail(root, keys)[|keys|] != JNull
  {
    ResolveWalkSound(root, Split(keyPath));
  }

  /** Conversely, every walk to a non-null node is a successful lookup of that node. */
  lemma LookupFindsWalkedNode(root: Json, keyPath: string, trail: seq<Json>)
    requires Walks(root, Split(keyPath), trail)
    requires trail[|trail| - 1] != JNull
    ensures Lookup(root, keyPath).Success?
    ensures ValueToJson(Lookup(root, keyPath).value) == trail[|trail| - 1]
  {
    ResolveFollowsWalk(root, Split(keyPath), trail);
  }

  /** A walk that ends on a JSON null fails with a conversion error. */
  lemma LookupNullLeaf(root: Json, keyPath: string, trail: seq<Json>)
    requires Walks(root, Split(keyPath), trail)
    requires trail[|trail| - 1] == JNull
    ensures Lookup(root, keyPath) == Failure(ConversionError(keyPath))
  {
    ResolveFollowsWalk(root, Split(keyPath), trail);
  }

  /**
   * A segment missing from the object reached so far fails the lookup with a
   * not-found error naming that segment; the later segments play no part.
   */
  lemma LookupMissingKey(root: Json, keyPath: string, i: nat, trail: seq<Json>)
    requires i < |Split(keyPath)|
    requires Walks(root, Split(keyPath)[..i], trail)
    requires trail[i].JObj? && Split(keyPath)[i] !in trail[i].fields
    ensures Lookup(root, keyPath) == Failure(KeyNotFound(keyPath, Split(keyPath)[i]))
  {
    ResolveMissingKey(root, Split(keyPath), i, trail);
  }

  /** `LoadTestData` without its state: read the file and parse it as a JSON object. */
  function ReadFixture(file: Option<string>, lib: JsonLibrary): (r: Result<Json, LoadFailure>)
    ensures r == Failure(FileNotFound) <==> file.None?
    ensures r.Success? <==> file.Some? && lib.parse(file.value).Some? && lib.parse(file.value).value.JObj?
    ensures r.Success? ==> lib.parse(file.value) == Some(r.value)
  {
    match file
    case None => Failure(FileNotFound)
    case Some(text) =>
      match lib.parse(text)
      case Some(JObj(fields)) => Success(JObj(fields))
      case _ => Failure(Malformed)
  }

  /**
   * The process-wide fixture store. `file` is what the fixture file holds at the
   * time of a call (`None`: it does not exist).
   */
  class JsonDataReader {
    var testData: Option<Json>
    /** Number of successful loads so far. */
    ghost var loads: nat

    /** The root, once loaded, is an object, and it was loaded exactly once. */
    ghost predicate Valid()
      reads this
    {
      && (testData.Some? ==> testData.value.JObj?)
      && loads == (if testData.Some? then 1 else 0)
    }

    constructor ()
      ensures Valid() && testData == None
    {
      testData := None;
      loads := 0;
    }

    /** Loads the fixture; on failure `testData` stays unset. */
    method LoadTestData(file: Option<string>, lib: JsonLibrary) returns (err: Option<Error>)
      requires Valid() && testData.None?
      modifies this
      ensures Valid()
      ensures match ReadFixture(file, lib)
        case Success(root) => testData == Some(root) && err.None?
        case Failure(f) => testData == None && err == Some(LoadError(f))
    {
      match ReadFixture(file, lib)
      case Success(root) =>
        testData := Some(root);
        loads := loads + 1;
        err := None;
      case Failure(f) =>
        err := Some(LoadError(f));
    }

    /** Loads the fixture only while it is unset: a loaded fixture is never reloaded. */
    method EnsureTestDataLoaded(file: Option<string>, lib: JsonLibrary) returns (err: Option<Error>)
      requires Valid()
      modifies this
      ensures Valid()
      ensures old(testData).Some? ==> testData == old(testData) && loads == old(loads) && err.None?
      ensures old(testData).None? ==>
        match ReadFixture(file, lib)
        case Success(root) => testData == Some(root) && err.None?
        case Failure(f) => testData == None && err == Some(LoadError(f))
    {
      err := None;
      if testData.None? {
        err := LoadTestData(file, lib);
      }
    }

    /**
     * Looks up `keyPath`: blank paths are rejected before any load, the fixture is
     * loaded if need be, and the path is walked segment by segment.
     */
    method GetValue(keyPath: Option<string>, file: Option<string>, lib: JsonLibrary)
      returns (r: Result<Value, Error>)
      requires Valid()
      modifies this
      ensures Valid()
      ensures IsNullOrWhiteSpace(keyPath) ==>
        r == Failure(ArgumentError) && testData == old(testData) && loads == old(loads)
      ensures !IsNullOrWhiteSpace(keyPath) && old(testData).Some? ==>
        testData == old(testData) && loads == old(loads) && r == Lookup(testData.value, keyPath.value)
      ensures !IsNullOrWhiteSpace(keyPath) && old(testData).None? ==>
        match ReadFixture(file, lib)
        case Success(root) => testData == Some(root) && r == Lookup(root, keyPath.value)
        case Failure(f) => testData == None && r == Failure(LoadError(f))
    {
      if IsNullOrWhiteSpace(keyPath) {
        return Failure(ArgumentError);
      }
      var err := EnsureTestDataLoaded(file, lib);
      if err.Some? {
        return Failure(err.value);
      }
      var path := keyPath.value;
      var keys := Split(path);
      var root := testData.value;
      var current := root;
      for i := 0 to |keys|
        invariant Resolve(root, keys) == Resolve(current, keys[i..])
      {
        assert keys[i..][1..] == keys[i + 1..];
        var next := Step(current, keys[i]);
        if next.Failure? {
          return Failure(StepError(path, next.error));
        }
        current := next.value;
      }
      assert keys[|keys|..] == [];
      match Convert(current)
      case None =>
        r := Failure(ConversionError(path));
      case Some(v) =>
        r := Success(v);
    }
  }

  /** Once loaded, two lookups of the same path give equal results and load nothing more. */
  method GetValueTwice(reader: JsonDataReader, keyPath: Option<string>, file: Option<string>, lib: JsonLibrary)
    returns (first: Result<Value, Error>, second: Result<Value, Error>)
    requires reader.Valid() && reader.testData.Some?
    modifies reader
    ensures reader.Valid() && reader.testData == old(reader.testData)
    ensures first == second
  {
    first := reader.GetValue(keyPath, file, lib);
    second := reader.GetValue(keyPath, file, lib);
  }
}
