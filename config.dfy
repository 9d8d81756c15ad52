/**
 * The configuration tree and `merge_configs` (markdown_to_word.py:175-187): the
 * user's JSON settings laid key by key over the defaults.
 */
module Config {
  /** A decoded JSON value. */
  datatype Json =
    | Obj(fields: map<string, Json>)
    | Str(text: string)
    | Num(value: real)
    | Bool(flag: bool)
    | Null
    | Arr(items: seq<Json>)

  /** The value `merge_configs(d, u)` leaves at key `k` of `d` (given `k` in `u`): a
      recursive merge when both sides are objects, otherwise the user's value. */
  function MergedEntry(d: map<string, Json>, u: map<string, Json>, k: string): Json
    requires k in u
    decreases Obj(u), 0
  {
    if k in d && d[k].Obj? && u[k].Obj? then Obj(Merge(d[k].fields, u[k].fields)) else u[k]
  }

  /** The mapping `d` becomes once `merge_configs(d, u)` has run. */
  function Merge(d: map<string, Json>, u: map<string, Json>): map<string, Json>
    decreases Obj(u), 1
  {
    map k | k in d.Keys + u.Keys :: if k in u then MergedEntry(d, u, k) else d[k]
  }

  /** The merge keeps every default key, adds every user key, and no other. */
  lemma {:induction false} MergeKeys(d: map<string, Json>, u: map<string, Json>)
    ensures Merge(d, u).Keys == d.Keys + u.Keys
  {
  }

  /** A key the user does not mention keeps its default value. */
  lemma {:induction false} MergeKeepsDefault(d: map<string, Json>, u: map<string, Json>, k: string)
    requires k in d && k !in u
    ensures k in Merge(d, u) && Merge(d, u)[k] == d[k]
  {
  }

  /** A user value replaces the default unless both are objects. */
  lemma {:induction false} MergeOverrides(d: map<string, Json>, u: map<string, Json>, k: string)
    requires k in u && !(k in d && d[k].Obj? && u[k].Obj?)
    ensures k in Merge(d, u) && Merge(d, u)[k] == u[k]
  {
  }

  /** Two objects under the same key are merged recursively. */
  lemma {:induction false} MergeRecurses(d: map<string, Json>, u: map<string, Json>, k: string)
    requires k in u && k in d && d[k].Obj? && u[k].Obj?
    ensures k in Merge(d, u) && Merge(d, u)[k] == Obj(Merge(d[k].fields, u[k].fields))
  {
  }

  /** An empty user configuration leaves the defaults as they are. */
  lemma {:induction false} MergeEmpty(d: map<string, Json>)
    ensures Merge(d, map[]) == d
  {
    assert Merge(d, map[]).Keys == d.Keys;
  }

  /** Merging a configuration into itself changes nothing. */
  lemma {:induction false} MergeSelf(d: map<string, Json>)
    ensures Merge(d, d) == d
    decreases Obj(d)
  {
    forall k | k in d ensures Merge(d, d)[k] == d[k] {
      if d[k].Obj? {
        MergeSelf(d[k].fields);
      }
    }
  }

  /** Loading the same user configuration twice gives what loading it once gives. */
  lemma {:induction false} MergeIdempotent(d: map<string, Json>, u: map<string, Json>)
    ensures Merge(Merge(d, u), u) == Merge(d, u)
    decreases Obj(u)
  {
    var m := Merge(d, u);
    forall k | k in m ensures Merge(m, u)[k] == m[k] {
      if k in u {
        if k in d && d[k].Obj? && u[k].Obj? {
          MergeIdempotent(d[k].fields, u[k].fields);
        } else if u[k].Obj? {
          MergeSelf(u[k].fields);
        }
      }
    }
  }

  /** The value found by following `path` through nested objects. */
  function Lookup(c: map<string, Json>, path: seq<string>): (v: Json)
    requires |path| >= 1
    decreases |path|
  {
    if path[0] !in c then Null
    else if |path| == 1 then c[path[0]]
    else if c[path[0]].Obj? then Lookup(c[path[0]].fields, path[1..])
    else Null
  }

  /** A user configuration that sets one value at the end of a path of objects. */
  function Single(path: seq<string>, v: Json): map<string, Json>
    requires |path| >= 1
    decreases |path|
  {
    if |path| == 1 then map[path[0] := v] else map[path[0] := Obj(Single(path[1..], v))]
  }

  /** The defaults have objects all along `path` (up to its last key). */
  predicate ObjectsAlong(c: map<string, Json>, path: seq<string>)
    requires |path| >= 1
    decreases |path|
  {
    |path| == 1 || (path[0] in c && c[path[0]].Obj? && ObjectsAlong(c[path[0]].fields, path[1..]))
  }

  /** `m` agrees with `d` off `path`: at every level along the path, every key of `d`
      other than the path's own holds its old value in `m`, and the path's own key
      holds an object in both down to the last level. */
  predicate SameOffPath(m: map<string, Json>, d: map<string, Json>, path: seq<string>)
    requires |path| >= 1
    decreases |path|
  {
    (forall k :: k in d && k != path[0] ==> k in m && m[k] == d[k])
    && (|path| > 1 ==>
          path[0] in m && path[0] in d && m[path[0]].Obj? && d[path[0]].Obj?
          && SameOffPath(m[path[0]].fields, d[path[0]].fields, path[1..]))
  }

  /** Overriding one leaf of the defaults, as in `{"document": {"generate_toc": false}}`,
      sets that leaf and leaves every sibling of every object on the path alone. */
  lemma {:induction false} MergeSingleLeaf(d: map<string, Json>, path: seq<string>, v: Json)
    requires |path| >= 1 && ObjectsAlong(d, path) && !v.Obj?
    ensures Lookup(Merge(d, Single(path, v)), path) == v
    ensures forall k :: k in d && k != path[0] ==> k in Merge(d, Single(path, v)) && Merge(d, Single(path, v))[k] == d[k]
    ensures SameOffPath(Merge(d, Single(path, v)), d, path)
    decreases |path|
  {
    var u := Single(path, v);
    if |path| > 1 {
      MergeSingleLeaf(d[path[0]].fields, path[1..], v);
      MergeRecurses(d, u, path[0]);
    }
  }

  /** The defaults once the user keys in `done` have been merged into them. */
  function Overlay(d: map<string, Json>, u: map<string, Json>, done: set<string>): map<string, Json>
    requires done <= u.Keys
  {
    map k | k in d.Keys + done :: if k in done then MergedEntry(d, u, k) else d[k]
  }

  lemma {:induction false} OverlayStart(d: map<string, Json>, u: map<string, Json>)
    ensures Overlay(d, u, {}) == d
  {
  }

  lemma {:induction false} OverlayStep(d: map<string, Json>, u: map<string, Json>, done: set<string>, k: string)
    requires done <= u.Keys && k in u && k !in done
    ensures Overlay(d, u, done + {k}) == Overlay(d, u, done)[k := MergedEntry(d, u, k)]
  {
  }

  lemma {:induction false} OverlayEnd(d: map<string, Json>, u: map<string, Json>)
    ensures Overlay(d, u, u.Keys) == Merge(d, u)
  {
  }

  /** `merge_configs` run as the source runs it: a loop over the user's keys that updates
      the defaults one key at a time, recursing into nested objects. The result is the
      merged mapping; the source's in-place update of shared nested dictionaries is not
      modelled. */
  method MergeConfigs(d: map<string, Json>, u: map<string, Json>) returns (r: map<string, Json>)
    ensures r == Merge(d, u)
    decreases Obj(u), 1
  {
    r := d;
    OverlayStart(d, u);
    var todo := u.Keys;
    ghost var done: set<string> := {};
    while todo != {}
      invariant done <= u.Keys && todo <= u.Keys
      invariant forall k :: k in u ==> (k in done <==> k !in todo)
      invariant r == Overlay(d, u, done)
      decreases |todo|
    {
      var key :| key in todo;
      r := MergeKey(d, u, done, r, key);
      done := done + {key};
      todo := todo - {key};
    }
    assert done == u.Keys;
    OverlayEnd(d, u);
  }

  /** One round of the loop in `merge_configs`: the user's value for `key` is merged into
      an object default, or replaces the default. */
  method MergeKey(d: map<string, Json>, u: map<string, Json>, ghost done: set<string>,
                  r: map<string, Json>, key: string) returns (r2: map<string, Json>)
    requires done <= u.Keys && key in u && key !in done
    requires r == Overlay(d, u, done)
    ensures r2 == Overlay(d, u, done + {key})
    decreases Obj(u), 0
  {
    var value := u[key];
    assert key in r <==> key in d;
    assert key in r ==> r[key] == d[key];
    if key in r && r[key].Obj? && value.Obj? {
      var sub := MergeConfigs(r[key].fields, value.fields);
      r2 := r[key := Obj(sub)];
    } else {
      r2 := r[key := value];
    }
    OverlayStep(d, u, done, key);
  }
}
