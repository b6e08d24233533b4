/** memoryagent/storage/local_disk.py: the file object store, the row
    semantics of the metadata store, the feature log and the score the
    sqlite-vec index gives a distance. Files and tables are maps here; a
    path is the string `str(path)` would give. */
module LocalDisk {
  import opened PyLib
  import opened Utils
  import opened Models

  /** A JSON document as the engine writes it: one payload record, a list
      of them (a daily-notes file), `null`, a string, or any other value
      (number, boolean) by its text. */
  datatype Json = JObject(p: Payload) | JList(entries: seq<Payload>) | JNull | JString(s: string) | JScalar(repr: string)

  /** What a file on disk holds: a document, or text that does not parse. */
  datatype FileData = Parsed(j: Json) | Unparseable

  /** `json.loads` failing on a file `get` reads. */
  datatype StoreError = DecodeError

  /** `_resolve_path(key)`: a key is given the `.json` suffix unless it
      has it, and a relative path is placed under the root. */
  function ResolvePath(root: string, key: string): string
  {
    var relative := if EndsWith(key, ".json") then key else key + ".json";
    if StartsWith(relative, "/") then relative else root + "/" + relative
  }

  lemma SuffixJson(s: string)
    ensures EndsWith(s + ".json", ".json")
  {
    assert (s + ".json")[|s + ".json"| - 5..] == ".json";
  }

  lemma AppendKeepsPrefix(s: string, t: string, prefix: string)
    requires StartsWith(s, prefix)
    ensures StartsWith(s + t, prefix)
  {
    assert (s + t)[..|prefix|] == s[..|prefix|];
  }

  lemma SlashPrefix(s: string)
    ensures StartsWith(s, "/") <==> s != [] && s[0] == '/'
  {
    if s != [] {
      assert s[..1] == [s[0]];
    }
  }

  /** Adding the suffix does not change whether a key is absolute. */
  lemma SuffixKeepsAbsolute(key: string)
    ensures StartsWith(key + ".json", "/") <==> StartsWith(key, "/")
  {
    SlashPrefix(key);
    SlashPrefix(key + ".json");
    if key != [] {
      assert (key + ".json")[0] == key[0];
    }
  }

  lemma ResolveEndsJson(root: string, key: string)
    ensures EndsWith(ResolvePath(root, key), ".json")
  {
    var relative := if EndsWith(key, ".json") then key else key + ".json";
    SuffixJson(key);
    var r := ResolvePath(root, key);
    if !StartsWith(relative, "/") {
      assert r == (root + "/") + relative;
      assert r[|r| - 5..] == relative[|relative| - 5..];
    }
  }

  lemma ResolveAbsolute(root: string, key: string)
    requires StartsWith(key, "/")
    ensures StartsWith(ResolvePath(root, key), key)
    ensures EndsWith(key, ".json") ==> ResolvePath(root, key) == key
  {
    SuffixKeepsAbsolute(key);
    if !EndsWith(key, ".json") {
      AppendKeepsPrefix(key, ".json", key);
    }
  }

  lemma ResolveRelative(root: string, key: string)
    requires !StartsWith(key, "/")
    ensures ResolvePath(root, key) == root + "/" + (if EndsWith(key, ".json") then key else key + ".json")
  {
    SuffixKeepsAbsolute(key);
  }

  /** Every resolved path names a `.json` file; an absolute key keeps its
      place, a relative one lands under the root, and a key and the same
      key with `.json` added name the same file. */
  lemma ResolvePathProps(root: string, key: string)
    ensures EndsWith(ResolvePath(root, key), ".json")
    ensures StartsWith(key, "/") ==> StartsWith(ResolvePath(root, key), key)
    ensures EndsWith(key, ".json") && StartsWith(key, "/") ==> ResolvePath(root, key) == key
    ensures !StartsWith(key, "/") ==> StartsWith(ResolvePath(root, key), root + "/")
    ensures !EndsWith(key, ".json") ==> ResolvePath(root, key + ".json") == ResolvePath(root, key)
  {
    ResolveEndsJson(root, key);
    if StartsWith(key, "/") {
      ResolveAbsolute(root, key);
    } else {
      ResolveRelative(root, key);
      var r := ResolvePath(root, key);
      assert r[..|root + "/"|] == root + "/";
    }
    if !EndsWith(key, ".json") {
      SuffixJson(key);
    }
  }

  /** The path `put` and `append` hand back is a key `get` accepts, and it
      names the same file when the root is absolute. When the root is a
      non-empty relative path the root is added a second time, so the
      file the path names is not the file that was written. */
  lemma ReturnedPathResolution(root: string, key: string)
    ensures StartsWith(root, "/") || StartsWith(key, "/") ==>
      ResolvePath(root, ResolvePath(root, key)) == ResolvePath(root, key)
    ensures root != [] && root[0] != '/' && !StartsWith(key, "/") ==>
      ResolvePath(root, ResolvePath(root, key)) == root + "/" + ResolvePath(root, key)
      && ResolvePath(root, ResolvePath(root, key)) != ResolvePath(root, key)
  {
    var r := ResolvePath(root, key);
    ResolvePathProps(root, key);
    SuffixKeepsAbsolute(key);
    var relative := if EndsWith(key, ".json") then key else key + ".json";
    assert StartsWith(relative, "/") <==> StartsWith(key, "/");
    SlashPrefix(r);
    SlashPrefix(root);
    if StartsWith(key, "/") {
      assert r == relative;
    } else {
      assert r == root + "/" + relative;
      if root != [] {
        assert r[0] == root[0];
      }
      if root != [] && root[0] != '/' {
        assert |root + "/" + r| > |r|;
      }
    }
  }

  /** What `_get_sync` reads at a path: nothing, a document, or a parse
      failure. */
  function Lookup(files: map<string, FileData>, path: string): Result<Option<Json>, StoreError>
  {
    if path !in files then Ok(None)
    else match files[path]
      case Unparseable => Err(DecodeError)
      case Parsed(j) => Ok(Some(j))
  }

  /** The list `_append_sync` starts from: the stored list, or `[]` when
      there is no file, it does not parse or it holds no list. */
  function Existing(files: map<string, FileData>, path: string): seq<Payload>
  {
    if path in files && files[path].Parsed? && files[path].j.JList? then files[path].j.entries else []
  }

  /** After an append the file holds the earlier entries followed by the
      new payload, and no other file changes. */
  lemma AppendProps(files: map<string, FileData>, path: string, p: Payload)
    ensures var files' := files[path := Parsed(JList(Existing(files, path) + [p]))];
      && Lookup(files', path).Ok? && Lookup(files', path).value.Some?
      && Lookup(files', path).value.value.JList?
      && var es := Lookup(files', path).value.value.entries;
      && |es| >= 1 && es[|es| - 1] == p
      && (Lookup(files, path) == Ok(Some(JList(es[..|es| - 1]))) || es == [p])
      && (forall q | q != path :: Lookup(files', q) == Lookup(files, q))
  {
    var es := Existing(files, path) + [p];
    assert es[..|es| - 1] == Existing(files, path);
  }

  /** `FileObjectStore`: JSON files under a root directory. */
  class FileObjectStore {
    const root: string
    var files: map<string, FileData>

    constructor (root: string)
      ensures this.root == root && files == map[]
    {
      this.root := root;
      files := map[];
    }

    /** `_put_sync(key, payload)`: the file is replaced by the payload and
        its path is returned. */
    method Put(key: string, payload: Payload) returns (path: string)
      modifies this
      ensures path == ResolvePath(root, key)
      ensures files == old(files)[path := Parsed(JObject(payload))]
      ensures Lookup(files, path) == Ok(Some(JObject(payload)))
    {
      path := ResolvePath(root, key);
      files := files[path := Parsed(JObject(payload))];
    }

    /** `_get_sync(key)` */
    method Get(key: string) returns (r: Result<Option<Json>, StoreError>)
      ensures ResolvePath(root, key) !in files ==> r == Ok(None)
      ensures r == Lookup(files, ResolvePath(root, key))
    {
      var path := ResolvePath(root, key);
      if path !in files {
        return Ok(None);
      }
      match files[path]
      case Unparseable => r := Err(DecodeError);
      case Parsed(j) => r := Ok(Some(j));
    }

    /** `_append_sync(key, payload)`: the payload is added at the end of
        the stored list, which starts empty when the file is missing, does
        not parse or holds something other than a list. */
    method Append(key: string, payload: Payload) returns (path: string)
      modifies this
      ensures path == ResolvePath(root, key)
      ensures files == old(files)[path := Parsed(JList(Existing(old(files), path) + [payload]))]
    {
      path := ResolvePath(root, key);
      var existing: seq<Payload> := [];
      if path in files {
        match files[path]
        case Unparseable =>
        case Parsed(j) =>
          if j.JList? {
            existing := j.entries;
          }
      }
      files := files[path := Parsed(JList(existing + [payload]))];
    }
  }

  /** The items of `owner`, in table order. */
  function OwnedBy(rows: map<string, MemoryItem>, order: seq<string>, owner: string): seq<MemoryItem>
    requires forall i | 0 <= i < |order| :: order[i] in rows
  {
    if order == [] then []
    else (if rows[order[0]].owner == owner then [rows[order[0]]] else []) + OwnedBy(rows, order[1..], owner)
  }

  /** `list_by_owner` lists exactly the stored items of that owner, each
      once. */
  lemma {:induction false} OwnedByMembers(rows: map<string, MemoryItem>, order: seq<string>, owner: string)
    requires forall i | 0 <= i < |order| :: order[i] in rows
    requires forall k | k in rows :: rows[k].id == k
    requires NoDups(order)
    ensures forall x | x in OwnedBy(rows, order, owner) :: x.owner == owner && x.id in order && rows[x.id] == x
    ensures forall i | 0 <= i < |order| && rows[order[i]].owner == owner :: rows[order[i]] in OwnedBy(rows, order, owner)
    ensures NoDups(OwnedBy(rows, order, owner))
  {
    if order != [] {
      NoDupsTail(order);
      OwnedByMembers(rows, order[1..], owner);
      var head := if rows[order[0]].owner == owner then [rows[order[0]]] else [];
      var tail := OwnedBy(rows, order[1..], owner);
      forall i | 0 <= i < |order| && rows[order[i]].owner == owner
        ensures rows[order[i]] in OwnedBy(rows, order, owner)
      {
        if i > 0 {
          assert order[i] == order[1..][i - 1];
        }
      }
      forall x | x in tail ensures x != rows[order[0]] {
        assert x.id in order[1..];
      }
      var r := head + tail;
      forall i, j | 0 <= i < j < |r| ensures r[i] != r[j] {
        if i < |head| {
          assert r[j] in tail;
        } else {
          assert r[i] == tail[i - |head|] && r[j] == tail[j - |head|];
        }
      }
    }
  }

  /** `SQLiteMetadataStore`: a table of items keyed by id. `order` is the
      table's row order, which `list_by_owner` follows; an update keeps a
      row's place. */
  class MetadataStore {
    var rows: map<string, MemoryItem>
    var order: seq<string>

    ghost predicate Valid()
      reads this
    {
      && NoDups(order)
      && (forall k :: k in order <==> k in rows)
      && (forall k | k in rows :: rows[k].id == k)
    }

    constructor ()
      ensures Valid() && rows == map[] && order == []
    {
      rows, order := map[], [];
    }

    /** `_upsert_sync(item)`: `updated_at` is set to now on the caller's
        item (returned here as `stored`) and the whole row is replaced. */
    method Upsert(item: MemoryItem, now: int) returns (stored: MemoryItem)
      requires Valid()
      modifies this
      ensures Valid()
      ensures stored == item.(updatedAt := now)
      ensures rows == old(rows)[item.id := stored]
      ensures order == if item.id in old(rows) then old(order) else old(order) + [item.id]
    {
      stored := item.(updatedAt := now);
      if item.id !in rows {
        forall i, j | 0 <= i < j < |order + [item.id]| ensures (order + [item.id])[i] != (order + [item.id])[j] {
          if j == |order| {
            assert order[i] in rows;
          }
        }
        order := order + [item.id];
      }
      rows := rows[item.id := stored];
    }

    /** `_get_sync(item_id)` */
    method Get(id: string) returns (r: Option<MemoryItem>)
      requires Valid()
      ensures id in rows ==> r == Some(rows[id]) && r.value.id == id
      ensures id !in rows ==> r == None
    {
      if id in rows {
        r := Some(rows[id]);
      } else {
        r := None;
      }
    }

    /** `_delete_sync(item_id)` */
    method Delete(id: string)
      requires Valid()
      modifies this
      ensures Valid()
      ensures rows == old(rows) - {id}
      ensures order == RemoveFirst(old(order), id)
    {
      RemoveFirstNoDups(order, id);
      order := RemoveFirst(order, id);
      rows := rows - {id};
    }

    /** `_list_by_owner_sync(owner)` */
    method ListByOwner(owner: string) returns (r: seq<MemoryItem>)
      requires Valid()
      ensures r == OwnedBy(rows, order, owner)
      ensures forall x | x in r :: x.owner == owner && x.id in rows && rows[x.id] == x
      ensures forall k | k in rows && rows[k].owner == owner :: rows[k] in r
      ensures NoDups(r)
    {
      r := CollectOwned(owner);
      OwnedByMembers(rows, order, owner);
      forall k | k in rows && rows[k].owner == owner ensures rows[k] in r {
        var j :| 0 <= j < |order| && order[j] == k;
      }
    }

    method CollectOwned(owner: string) returns (r: seq<MemoryItem>)
      requires forall i | 0 <= i < |order| :: order[i] in rows
      ensures r == OwnedBy(rows, order, owner)
    {
      r := [];
      var i := 0;
      while i < |order|
        invariant 0 <= i <= |order|
        invariant OwnedBy(rows, order, owner) == r + OwnedBy(rows, order[i..], owner)
      {
        assert order[i..][1..] == order[i + 1..];
        if rows[order[i]].owner == owner {
          r := r + [rows[order[i]]];
        }
        i := i + 1;
      }
      assert order[i..] == [];
    }

    /** `_update_access_sync(item_id)`: only `last_accessed` changes, and
        only when the row exists. */
    method UpdateAccess(id: string, now: int)
      requires Valid()
      modifies this
      ensures Valid()
      ensures order == old(order)
      ensures id in old(rows) ==> rows == old(rows)[id := old(rows)[id].(lastAccessed := Some(now))]
      ensures id !in old(rows) ==> rows == old(rows)
    {
      if id in rows {
        rows := rows[id := rows[id].(lastAccessed := Some(now))];
      }
    }
  }

  /** The payload `PerceptualIndexer` writes. */
  datatype Feature = Feature(summary: string, tags: seq<string>, confidence: real)

  datatype FeatureRow = FeatureRow(owner: string, createdAt: int, feature: Feature)

  /** The feature table, as the append-only log `write_feature` fills. */
  class FeatureStore {
    var rows: seq<FeatureRow>

    constructor ()
      ensures rows == []
    {
      rows := [];
    }

    /** `write_feature(owner, payload)` */
    method WriteFeature(owner: string, f: Feature, now: int)
      modifies this
      ensures rows == old(rows) + [FeatureRow(owner, now, f)]
    {
      rows := rows + [FeatureRow(owner, now, f)];
    }
  }

  /** The score the sqlite-vec index gives a match at `distance`; the
      division fails at -1 only. */
  function VecScore(distance: real): real
    requires distance != -1.0
  {
    Clamp01(1.0 / (1.0 + distance))
  }

  /** For the distances a search returns, the score lies in (0,1], is 1
      exactly at distance 0 and falls as the distance grows. */
  lemma VecScoreProps(d: real, e: real)
    requires 0.0 <= d <= e
    ensures 0.0 < VecScore(d) <= 1.0
    ensures VecScore(d) == 1.0 <==> d == 0.0
    ensures VecScore(e) <= VecScore(d)
    ensures d < e ==> VecScore(e) < VecScore(d)
  {
    var x, y := 1.0 + d, 1.0 + e;
    assert (1.0 / x) * x == 1.0 && (1.0 / y) * y == 1.0;
    assert 0.0 < 1.0 / x <= 1.0 && 0.0 < 1.0 / y <= 1.0;
    if d < e {
      assert 1.0 / y < 1.0 / x;
    }
    if d > 0.0 {
      assert 1.0 / x < 1.0;
    }
  }
}
