/** Model of internal/language/languagecache.go: a read-through cache of the
    language identity tables, with one map per key space.

    The database query behind a miss (GetSourceExtension / GetSourceBasename
    in internal/language/languages.go) is a lookup function passed to each
    call: it stands for what the database answers at that moment, a record
    or an error (`NotFound` for sql.ErrNoRows). */
module Languages {
  import opened Wrappers

  datatype Language = Language(id: string, name: string, ecosystem: string)

  datatype SourceExtension = SourceExtension(
    extension: string, languageId: string, isText: bool, isPrimary: bool, notes: Option<string>)

  datatype SourceBasename = SourceBasename(
    name: string, languageId: string, isText: bool, notes: Option<string>)

  datatype LookupError = NotFound | QueryFailed(message: string)

  /** What one cache read returns, and the map it leaves. */
  datatype Answer<V> = Answer(result: Result<V, LookupError>, cache: map<string, V>)

  /** One read-through read of `key`, where `fetched` is what the database
      lookup would return. A hit answers from the map without the lookup; a
      miss answers with the lookup's result and caches it only when it is a
      record; entries already cached never change. */
  function Resolve<V>(cache: map<string, V>, key: string, fetched: Result<V, LookupError>): (a: Answer<V>)
    ensures key in cache ==> a.result == Success(cache[key])
    ensures key !in cache ==> a.result == fetched
    ensures a.result.Success? ==> key in a.cache && a.cache[key] == a.result.value
    ensures a.cache.Keys == cache.Keys + (if a.result.Success? then {key} else {})
    ensures forall k :: k in cache ==> k in a.cache && a.cache[k] == cache[k]
  {
    if key in cache then Answer(Success(cache[key]), cache)
    else if fetched.Failure? then Answer(fetched, cache)
    else Answer(fetched, cache[key := fetched.value])
  }

  /** A read request: the key, and what the database would answer for it at that moment. */
  datatype Request<V> = Request(key: string, fetched: Result<V, LookupError>)

  /** The answers to a sequence of reads served one after another. */
  function Replay<V>(cache: map<string, V>, reqs: seq<Request<V>>): (results: seq<Result<V, LookupError>>)
    ensures |results| == |reqs|
    decreases |reqs|
  {
    if reqs == [] then []
    else
      var a := Resolve(cache, reqs[0].key, reqs[0].fetched);
      [a.result] + Replay(a.cache, reqs[1..])
  }

  /** A key already cached is answered from the cache by every later read,
      whatever the database says. */
  lemma {:induction false} CachedStaysCached<V>(cache: map<string, V>, reqs: seq<Request<V>>, key: string)
    requires key in cache
    ensures forall j :: 0 <= j < |reqs| && reqs[j].key == key ==> Replay(cache, reqs)[j] == Success(cache[key])
    decreases |reqs|
  {
    if reqs != [] {
      var a := Resolve(cache, reqs[0].key, reqs[0].fetched);
      CachedStaysCached(a.cache, reqs[1..], key);
      var results := Replay(cache, reqs);
      forall j | 0 <= j < |reqs| && reqs[j].key == key
        ensures results[j] == Success(cache[key])
      {
        if j > 0 {
          assert results[j] == Replay(a.cache, reqs[1..])[j - 1];
          assert reqs[1..][j - 1] == reqs[j];
        }
      }
    }
  }

  /** Once a read of a key returns a record, every later read of that key
      returns the same record. */
  lemma {:induction false} SuccessIsSticky<V>(cache: map<string, V>, reqs: seq<Request<V>>, i: nat, j: nat)
    requires i < j < |reqs| && reqs[i].key == reqs[j].key
    requires Replay(cache, reqs)[i].Success?
    ensures Replay(cache, reqs)[j] == Replay(cache, reqs)[i]
    decreases i
  {
    var a := Resolve(cache, reqs[0].key, reqs[0].fetched);
    var rest := reqs[1..];
    assert Replay(cache, reqs)[j] == Replay(a.cache, rest)[j - 1];
    assert rest[j - 1] == reqs[j];
    if i == 0 {
      CachedStaysCached(a.cache, rest, reqs[0].key);
    } else {
      assert Replay(cache, reqs)[i] == Replay(a.cache, rest)[i - 1];
      assert rest[i - 1] == reqs[i];
      SuccessIsSticky(a.cache, rest, i - 1, j - 1);
    }
  }

  /** A failed lookup leaves nothing behind: the next read of the same key
      (with nothing in between) consults the database again. */
  lemma ErrorsAreNotCached<V>(cache: map<string, V>, key: string, err: LookupError, next: Result<V, LookupError>)
    requires key !in cache
    ensures var reqs := [Request(key, Failure(err)), Request(key, next)];
      Replay(cache, reqs) == [Failure(err), next]
  {
    var reqs := [Request(key, Failure(err)), Request(key, next)];
    var a := Resolve(cache, key, Failure(err));
    assert reqs[1..] == [Request(key, next)];
    assert reqs[1..][1..] == [];
  }

  /** LanguageCache: the three key spaces, each a map written in place on a miss. */
  class LanguageCache {
    var languages: map<string, Language>
    var sourceExtensions: map<string, SourceExtension>
    var sourceBasenames: map<string, SourceBasename>

    /** NewLanguageCache: all three maps empty. */
    constructor ()
      ensures languages == map[] && sourceExtensions == map[] && sourceBasenames == map[]
    {
      languages, sourceExtensions, sourceBasenames := map[], map[], map[];
    }

    /** GetExtensionInfo: answer from the extension map, or look the
        extension up and cache the record found. Only the extension map can
        change. */
    method GetExtensionInfo(ext: string, lookup: string -> Result<SourceExtension, LookupError>)
      returns (r: Result<SourceExtension, LookupError>)
      modifies this`sourceExtensions
      ensures ext in old(sourceExtensions) ==> r == Success(old(sourceExtensions)[ext]) && sourceExtensions == old(sourceExtensions)
      ensures ext !in old(sourceExtensions) ==> Answer(r, sourceExtensions) == Resolve(old(sourceExtensions), ext, lookup(ext))
    {
      if ext in sourceExtensions {
        return Success(sourceExtensions[ext]);
      }
      var lookupval := lookup(ext);
      if lookupval.Failure? {
        return lookupval;
      }
      sourceExtensions := sourceExtensions[ext := lookupval.value];
      return lookupval;
    }

    /** GetBasenameInfo: the same read-through rule for the basename map.
        Only the basename map can change. */
    method GetBasenameInfo(name: string, lookup: string -> Result<SourceBasename, LookupError>)
      returns (r: Result<SourceBasename, LookupError>)
      modifies this`sourceBasenames
      ensures name in old(sourceBasenames) ==> r == Success(old(sourceBasenames)[name]) && sourceBasenames == old(sourceBasenames)
      ensures name !in old(sourceBasenames) ==> Answer(r, sourceBasenames) == Resolve(old(sourceBasenames), name, lookup(name))
    {
      if name in sourceBasenames {
        return Success(sourceBasenames[name]);
      }
      var lookupval := lookup(name);
      if lookupval.Failure? {
        return lookupval;
      }
      sourceBasenames := sourceBasenames[name := lookupval.value];
      return lookupval;
    }
  }
}
