/**
  The on-disk cache: one pickle file per `(category, key)` under a cache
  directory, expired by file age.  The file system is a map from
  `(category, key)` to the file's content and modification time, plus the
  set of category directories that exist; the clock is the `now` argument.
*/
module Cache {
  import opened Wrappers
  import opened CacheKey
  import Text

  /** A cache file's location: its category directory and its key. */
  type Path = (string, string)

  /** What unpickling a cache file gives: the `{value, timestamp}` record;
      `Corrupt`, a file `pickle` rejects with `UnpicklingError`; or
      `Raising(e)`, a file whose reading raises some other exception `e`:
      `EOFError` for an empty or truncated file, `KeyError` or `TypeError` for
      a pickle that is not a record with a `value` entry. */
  datatype FileContent<V> = Pickled(value: V, timestamp: int) | Corrupt | Raising(error: Exception)

  datatype CacheFile<V> = CacheFile(content: FileContent<V>, mtime: int)

  /** One category's entry in `get_stats`. */
  datatype CategoryStats = CategoryStats(total: nat, expired: nat)

  /** The three subdirectories created at start-up, in the order the sweeps visit them. */
  const FixedCategories: seq<string> := ["embeddings", "queries", "responses"]

  /** `_is_expired`: a missing file counts as expired; otherwise the file is
      expired once its age exceeds the TTL strictly. */
  predicate IsExpired<V>(files: map<Path, CacheFile<V>>, p: Path, now: int, ttl: int)
  {
    p !in files || now - files[p].mtime > ttl
  }

  /** What `get` does for a file system state: returns the value (`Some`),
      returns `None`, or raises an exception (`Err`), since it catches only
      `FileNotFoundError` and `UnpicklingError`. */
  function Lookup<V>(files: map<Path, CacheFile<V>>, p: Path, now: int, ttl: int): Result<Option<V>, Exception>
  {
    if IsExpired(files, p, now, ttl) then Ok(None)
    else match files[p].content
      case Pickled(v, _) => Ok(Some(v))
      case Corrupt => Ok(None)
      case Raising(e) => Err(e)
  }

  /** The files of one category. */
  function CategoryPaths<V>(files: map<Path, CacheFile<V>>, category: string): set<Path>
  {
    set p | p in files && p.0 == category
  }

  /** The expired files of the given categories. */
  function ExpiredIn<V>(files: map<Path, CacheFile<V>>, categories: seq<string>, now: int, ttl: int): set<Path>
  {
    set p | p in files && p.0 in categories && now - files[p].mtime > ttl
  }

  /** The file system after unlinking `gone`. */
  function Without<V>(files: map<Path, CacheFile<V>>, gone: set<Path>): map<Path, CacheFile<V>>
  {
    map p | p in files && p !in gone :: files[p]
  }

  /** `get` returns a value exactly when the file exists, is at most `ttl`
      seconds old and unpickles, and the value is the one pickled; it raises
      exactly when such a file's reading raises something other than
      `UnpicklingError`, and raises that; otherwise it returns `None`. */
  lemma LookupCases<V>(files: map<Path, CacheFile<V>>, p: Path, now: int, ttl: int)
    ensures var r := Lookup(files, p, now, ttl);
      && (r.Ok? && r.value.Some? <==> p in files && now - files[p].mtime <= ttl && files[p].content.Pickled?)
      && (r.Ok? && r.value.Some? ==> r.value.value == files[p].content.value)
      && (r.Err? <==> p in files && now - files[p].mtime <= ttl && files[p].content.Raising?)
      && (r.Err? ==> r.error == files[p].content.error)
  {
  }

  /** An entry exactly `ttl` seconds old is still served; one second later it is not. */
  lemma TtlBoundary<V>(files: map<Path, CacheFile<V>>, p: Path, ttl: int, v: V, stamp: int)
    requires p in files && files[p].content == Pickled(v, stamp)
    ensures Lookup(files, p, files[p].mtime + ttl, ttl) == Ok(Some(v))
    ensures Lookup(files, p, files[p].mtime + ttl + 1, ttl) == Ok(None)
  {
  }

  /** A `set` followed by a `get` at the same instant returns the value just
      written (provided the TTL is not negative), whatever was there before. */
  lemma SetThenGet<V>(files: map<Path, CacheFile<V>>, p: Path, v: V, now: int, ttl: int)
    requires ttl >= 0
    ensures Lookup(files[p := CacheFile(Pickled(v, now), now)], p, now, ttl) == Ok(Some(v))
  {
  }

  /** With a negative TTL even a file written this instant is expired. */
  lemma NegativeTtlNeverServes<V>(files: map<Path, CacheFile<V>>, p: Path, now: int, ttl: int)
    requires ttl < 0
    requires p in files && files[p].mtime == now
    ensures Lookup(files, p, now, ttl) == Ok(None)
  {
  }

  /** Writing one entry leaves every other entry's lookup as it was. */
  lemma SetIsolated<V>(files: map<Path, CacheFile<V>>, p: Path, q: Path, f: CacheFile<V>, now: int, ttl: int)
    requires p != q
    ensures Lookup(files[p := f], q, now, ttl) == Lookup(files, q, now, ttl)
  {
  }

  /** Clearing a category forgets every entry in it and keeps all others. */
  lemma ClearCategoryEffect<V>(files: map<Path, CacheFile<V>>, category: string, q: Path, now: int, ttl: int)
    ensures q.0 == category ==> Lookup(Without(files, CategoryPaths(files, category)), q, now, ttl) == Ok(None)
    ensures q.0 != category ==>
      Lookup(Without(files, CategoryPaths(files, category)), q, now, ttl) == Lookup(files, q, now, ttl)
  {
  }

  /** Removing the expired entries changes no lookup made at the same instant,
      and leaves no expired entry in the fixed categories. */
  lemma ClearExpiredEffect<V>(files: map<Path, CacheFile<V>>, q: Path, now: int, ttl: int)
    ensures Lookup(Without(files, ExpiredIn(files, FixedCategories, now, ttl)), q, now, ttl) == Lookup(files, q, now, ttl)
    ensures ExpiredIn(Without(files, ExpiredIn(files, FixedCategories, now, ttl)), FixedCategories, now, ttl) == {}
  {
  }

  /** The expired files of a category are among its files. */
  lemma ExpiredWithinTotal<V>(files: map<Path, CacheFile<V>>, category: string, now: int, ttl: int)
    ensures ExpiredIn(files, [category], now, ttl) <= CategoryPaths(files, category)
    ensures |ExpiredIn(files, [category], now, ttl)| <= |CategoryPaths(files, category)|
  {
    var e, t := ExpiredIn(files, [category], now, ttl), CategoryPaths(files, category);
    assert e <= t;
    assert t == e + (t - e);
  }

  /** The text hashed for a response key: the pair rendered with `context`
      before `query`, whatever order the dict literal lists them in. */
  lemma ResponseKeySource(query: string, context: string)
    ensures KeySource(Dict([("query", Str(query)), ("context", Str(context))]))
      == "{" + (Quote("context") + ": " + Quote(context)) + ", " + (Quote("query") + ": " + Quote(query)) + "}"
  {
    assert StrLt("context", "query") by {
      assert "context"[0] == 'c' && "query"[0] == 'q';
    }
    DictPairSource("query", Str(query), "context", Str(context));
  }

  /** A two-entry dict whose keys are listed out of order renders them swapped. */
  lemma DictPairSource(k1: string, v1: Value, k2: string, v2: Value)
    requires StrLt(k2, k1)
    ensures Json(Dict([(k1, v1), (k2, v2)]))
      == "{" + (Quote(k2) + ": " + Json(v2)) + ", " + (Quote(k1) + ": " + Json(v1)) + "}"
  {
    var entries := [(k1, v1), (k2, v2)];
    var a, b := (k1, Json(v1)), (k2, Json(v2));
    var rendered := seq(|entries|, i requires 0 <= i < |entries| => (entries[i].0, Json(entries[i].1)));
    var sorted := SortByKey(rendered);
    var parts := seq(|sorted|, i requires 0 <= i < |sorted| => Quote(sorted[i].0) + ": " + sorted[i].1);
    assert sorted == [b, a] by {
      assert rendered == [a, b];
      SortPair(a, b);
    }
    assert Text.Join(parts, ", ") == parts[0] + ", " + parts[1] by {
      assert parts[..1] == [parts[0]];
    }
    assert "{" + (parts[0] + ", " + parts[1]) + "}" == "{" + parts[0] + ", " + parts[1] + "}";
  }

  /** Sorting two items whose keys are out of order swaps them. */
  lemma SortPair<V>(a: (string, V), b: (string, V))
    requires StrLt(b.0, a.0)
    ensures SortByKey([a, b]) == [b, a]
  {
    assert [a, b][1..] == [b];
    assert SortByKey([b]) == [b] by {
      assert [b][1..] == [];
    }
    assert InsertByKey([b], a) == [b] + InsertByKey([], a);
  }

  lemma WithoutOneMore<V>(files: map<Path, CacheFile<V>>, gone: set<Path>, p: Path)
    ensures Without(files, gone) - {p} == Without(files, gone + {p})
  {
  }

  /** One file of the sweep: unlinking it when expired extends the removed set
      by a new member, and a file that is kept was never due. */
  lemma SweepOne<V>(files: map<Path, CacheFile<V>>, category: string, now: int, ttl: int,
                    pending: set<Path>, removed: set<Path>, p: Path)
    requires pending <= CategoryPaths(files, category) && p in pending
    requires forall q :: q in removed <==> q in ExpiredIn(files, [category], now, ttl) && q !in pending
    ensures p in Without(files, removed) && Without(files, removed)[p] == files[p]
    ensures now - files[p].mtime > ttl ==>
      && p !in removed
      && |removed + {p}| == |removed| + 1
      && (forall q :: q in removed + {p} <==> q in ExpiredIn(files, [category], now, ttl) && q !in pending - {p})
      && Without(files, removed) - {p} == Without(files, removed + {p})
    ensures now - files[p].mtime <= ttl ==>
      forall q :: q in removed <==> q in ExpiredIn(files, [category], now, ttl) && q !in pending - {p}
  {
    WithoutOneMore(files, removed, p);
  }

  /** Sweeping one more category after some others removes the expired files
      of all of them, and the counts add up. */
  lemma SweepStep<V>(files: map<Path, CacheFile<V>>, done: seq<string>, category: string, now: int, ttl: int)
    requires category !in done
    ensures var rest := Without(files, ExpiredIn(files, done, now, ttl));
      && ExpiredIn(rest, [category], now, ttl) == ExpiredIn(files, [category], now, ttl)
      && Without(rest, ExpiredIn(rest, [category], now, ttl)) == Without(files, ExpiredIn(files, done + [category], now, ttl))
      && |ExpiredIn(files, done + [category], now, ttl)|
         == |ExpiredIn(files, done, now, ttl)| + |ExpiredIn(files, [category], now, ttl)|
  {
    var a, b := ExpiredIn(files, done, now, ttl), ExpiredIn(files, [category], now, ttl);
    assert ExpiredIn(files, done + [category], now, ttl) == a + b;
    assert a * b == {};
  }

  class CacheManager<V> {
    const ttl: int
    /** The hex digest `_generate_key` applies (SHA-256 in the original). */
    const digest: string -> string
    /** The category directories under the cache directory. */
    var dirs: set<string>
    /** The `.pkl` files under them. */
    var files: map<Path, CacheFile<V>>

    ghost predicate Valid()
      reads this
    {
      && (forall c :: c in FixedCategories ==> c in dirs)
      && (forall p :: p in files ==> p.0 in dirs)
    }

    /** Opens a cache directory that may already hold directories and files
        from earlier runs, and creates the three fixed subdirectories. */
    constructor (ttl: int, digest: string -> string, existingDirs: set<string>, existingFiles: map<Path, CacheFile<V>>)
      requires forall p :: p in existingFiles ==> p.0 in existingDirs
      ensures Valid()
      ensures this.ttl == ttl && this.digest == digest
      ensures dirs == existingDirs + {"embeddings", "queries", "responses"}
      ensures files == existingFiles
    {
      this.ttl := ttl;
      this.digest := digest;
      dirs := existingDirs + {"embeddings", "queries", "responses"};
      files := existingFiles;
    }

    /** `_generate_key`: the digest of the canonical text of `data`. */
    function GenerateKey(data: Value): string
    {
      digest(KeySource(data))
    }

    /** Key building only sees a dict's items, not their insertion order. */
    lemma GenerateKeyOrderIndependent(e1: seq<(string, Value)>, e2: seq<(string, Value)>)
      requires DistinctKeys(e1) && DistinctKeys(e2)
      requires ToMap(e1) == ToMap(e2)
      ensures GenerateKey(Dict(e1)) == GenerateKey(Dict(e2))
    {
      KeySourceOrderIndependent(e1, e2);
    }

    /** The key the embedding and query caches use for a text. */
    function TextKey(text: string): string
    {
      GenerateKey(Str(text))
    }

    /** The key the response cache uses for a `(query, context)` pair. */
    function ResponseKey(query: string, context: string): string
    {
      GenerateKey(Dict([("query", Str(query)), ("context", Str(context))]))
    }

    /** `_is_expired` on the current files. */
    predicate Expired(p: Path, now: int)
      reads this
    {
      IsExpired(files, p, now, ttl)
    }

    /** Pickles `value` with a timestamp into the category's directory; the
        open fails when that directory does not exist. */
    method Set(key: string, value: V, category: string, now: int) returns (r: Outcome<Exception>)
      requires Valid()
      modifies this
      ensures Valid() && dirs == old(dirs)
      ensures r.Pass? <==> category in dirs
      ensures r.Pass? ==> files == old(files)[(category, key) := CacheFile(Pickled(value, now), now)]
      ensures r.Fail? ==> r.error.kind == "FileNotFoundError" && files == old(files)
    {
      if category !in dirs {
        return Fail(Exception("FileNotFoundError", "No such file or directory"));
      }
      files := files[(category, key) := CacheFile(Pickled(value, now), now)];
      r := Pass;
    }

    /** Reads an entry: `None` when it is missing, expired or rejected by
        `pickle`; any other exception its reading raises is passed on. */
    method Get(key: string, category: string, now: int) returns (r: Result<Option<V>, Exception>)
      requires Valid()
      ensures r == Lookup(files, (category, key), now, ttl)
      ensures category !in dirs ==> r == Ok(None)
    {
      var path := (category, key);
      if Expired(path, now) {
        return Ok(None);
      }
      var content := files[path].content;
      match content
      case Pickled(v, _) => r := Ok(Some(v));
      case Corrupt => r := Ok(None);
      case Raising(e) => r := Err(e);
    }

    method CacheEmbedding(text: string, embedding: V, now: int)
      requires Valid()
      modifies this
      ensures Valid() && dirs == old(dirs)
      ensures files == old(files)[("embeddings", TextKey(text)) := CacheFile(Pickled(embedding, now), now)]
    {
      var _ := Set(TextKey(text), embedding, "embeddings", now);
    }

    method GetCachedEmbedding(text: string, now: int) returns (r: Result<Option<V>, Exception>)
      requires Valid()
      ensures r == Lookup(files, ("embeddings", TextKey(text)), now, ttl)
    {
      r := Get(TextKey(text), "embeddings", now);
    }

    method CacheQueryResult(query: string, result: V, now: int)
      requires Valid()
      modifies this
      ensures Valid() && dirs == old(dirs)
      ensures files == old(files)[("queries", TextKey(query)) := CacheFile(Pickled(result, now), now)]
    {
      var _ := Set(TextKey(query), result, "queries", now);
    }

    method GetCachedQuery(query: string, now: int) returns (r: Result<Option<V>, Exception>)
      requires Valid()
      ensures r == Lookup(files, ("queries", TextKey(query)), now, ttl)
    {
      r := Get(TextKey(query), "queries", now);
    }

    method CacheResponse(query: string, context: string, response: V, now: int)
      requires Valid()
      modifies this
      ensures Valid() && dirs == old(dirs)
      ensures files == old(files)[("responses", ResponseKey(query, context)) := CacheFile(Pickled(response, now), now)]
    {
      var _ := Set(ResponseKey(query, context), response, "responses", now);
    }

    method GetCachedResponse(query: string, context: string, now: int) returns (r: Result<Option<V>, Exception>)
      requires Valid()
      ensures r == Lookup(files, ("responses", ResponseKey(query, context)), now, ttl)
    {
      r := Get(ResponseKey(query, context), "responses", now);
    }

    /** Unlinks every file of `category` and counts them; a missing directory
        has no files. */
    method ClearCategory(category: string) returns (count: nat)
      requires Valid()
      modifies this
      ensures Valid() && dirs == old(dirs)
      ensures files == Without(old(files), CategoryPaths(old(files), category))
      ensures count == |CategoryPaths(old(files), category)|
    {
      ghost var all := CategoryPaths(files, category);
      var pending := CategoryPaths(files, category);
      count := 0;
      while pending != {}
        invariant pending <= all
        invariant count == |all| - |pending|
        invariant files == Without(old(files), all - pending)
        invariant Valid() && dirs == old(dirs)
        decreases |pending|
      {
        var p :| p in pending;
        files := files - {p};
        pending := pending - {p};
        count := count + 1;
      }
    }

    /** Unlinks the expired files of the three fixed categories and counts
        them; directories of other categories are not visited. */
    method ClearExpired(now: int) returns (count: nat)
      requires Valid()
      modifies this
      ensures Valid() && dirs == old(dirs)
      ensures files == Without(old(files), ExpiredIn(old(files), FixedCategories, now, ttl))
      ensures count == |ExpiredIn(old(files), FixedCategories, now, ttl)|
    {
      count := 0;
      for i := 0 to |FixedCategories|
        invariant files == Without(old(files), ExpiredIn(old(files), FixedCategories[..i], now, ttl))
        invariant count == |ExpiredIn(old(files), FixedCategories[..i], now, ttl)|
        invariant Valid() && dirs == old(dirs)
      {
        var category := FixedCategories[i];
        var n := SweepExpired(category, now);
        SweepStep(old(files), FixedCategories[..i], category, now, ttl);
        assert FixedCategories[..i + 1] == FixedCategories[..i] + [category];
        count := count + n;
      }
      assert FixedCategories[..|FixedCategories|] == FixedCategories;
    }

    /** The inner loop of `clear_expired`: unlinks the expired files of one category. */
    method SweepExpired(category: string, now: int) returns (n: nat)
      requires Valid()
      modifies this
      ensures Valid() && dirs == old(dirs)
      ensures files == Without(old(files), ExpiredIn(old(files), [category], now, ttl))
      ensures n == |ExpiredIn(old(files), [category], now, ttl)|
    {
      ghost var start := files;
      ghost var target := ExpiredIn(start, [category], now, ttl);
      var listed := CategoryPaths(files, category);
      var pending := listed;
      ghost var removed: set<Path> := {};
      n := 0;
      while pending != {}
        invariant pending <= CategoryPaths(start, category)
        invariant forall q :: q in removed <==> q in target && q !in pending
        invariant files == Without(start, removed)
        invariant n == |removed|
        invariant dirs == old(dirs)
        decreases |pending|
      {
        var p :| p in pending;
        SweepOne(start, category, now, ttl, pending, removed, p);
        if now - files[p].mtime > ttl {
          files := files - {p};
          removed := removed + {p};
          n := n + 1;
        }
        pending := pending - {p};
      }
      assert removed == target;
      assert files.Keys <= start.Keys;
    }

    /** Per fixed category, the number of files and how many of them are expired. */
    method GetStats(now: int) returns (stats: map<string, CategoryStats>)
      ensures stats.Keys == {"embeddings", "queries", "responses"}
      ensures forall c :: c in stats ==>
        && stats[c].total == |CategoryPaths(files, c)|
        && stats[c].expired == |ExpiredIn(files, [c], now, ttl)|
        && stats[c].expired <= stats[c].total
    {
      stats := map[];
      for i := 0 to |FixedCategories|
        invariant stats.Keys == set c | c in FixedCategories[..i]
        invariant forall c :: c in stats ==>
          && stats[c].total == |CategoryPaths(files, c)|
          && stats[c].expired == |ExpiredIn(files, [c], now, ttl)|
          && stats[c].expired <= stats[c].total
      {
        var category := FixedCategories[i];
        var s := CountCategory(category, now);
        stats := stats[category := s];
        assert FixedCategories[..i + 1] == FixedCategories[..i] + [category];
      }
      assert FixedCategories[..|FixedCategories|] == FixedCategories;
    }

    /** One category's `{total, expired}`: lists its files, then counts the expired ones. */
    method CountCategory(category: string, now: int) returns (s: CategoryStats)
      ensures s.total == |CategoryPaths(files, category)|
      ensures s.expired == |ExpiredIn(files, [category], now, ttl)|
      ensures s.expired <= s.total
    {
      var listed := CategoryPaths(files, category);
      ghost var target := ExpiredIn(files, [category], now, ttl);
      var pending := listed;
      var expired := 0;
      while pending != {}
        invariant pending <= listed
        invariant expired == |target - pending|
        decreases |pending|
      {
        var p :| p in pending;
        if Expired(p, now) {
          assert target - (pending - {p}) == (target - pending) + {p};
          expired := expired + 1;
        } else {
          assert target - (pending - {p}) == target - pending;
        }
        pending := pending - {p};
      }
      ExpiredWithinTotal(files, category, now, ttl);
      s := CategoryStats(|listed|, expired);
    }
  }
}
