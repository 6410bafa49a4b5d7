/**
 * `DotDictify` and `load_params` (qcore/utils.py:13-37, 66-71): a dictionary whose plain-dict
 * values are converted into `DotDictify` on insertion, and whose lookups create an empty child for
 * a missing key. Attribute access (`d.x`, `d.x = v`) is the same pair of operations.
 *
 * A child mapping is modelled as a value inside its parent, not as a shared object, so a change
 * made through a child returned by a lookup is not seen by the parent.
 */
module DotDict {
  import opened Wrappers

  /** What a parameter file can hold: a scalar or list, `None`, a plain dict, or a `DotDictify`. */
  datatype Value =
    | Atom(text: string)
    | Null
    | Plain(entries: map<string, Value>)
    | Dot(entries: map<string, Value>)

  /** A value the constructor accepts: `None` or any dict. */
  predicate IsDictOrNone(v: Value) { v.Null? || v.Plain? || v.Dot? }

  /**
   * What `__setitem__` stores for `v`: a plain dict becomes a `DotDictify` whose own values went
   * through `__setitem__`; anything else, a `DotDictify` included, is stored as it is. What is
   * stored is never a plain dict, so storing it again changes nothing.
   */
  function Wrap(v: Value): (r: Value)
    ensures !r.Plain?
    ensures v.Plain? ==> r.Dot? && r.entries.Keys == v.entries.Keys
    ensures !v.Plain? ==> r == v
  {
    match v
    case Plain(m) => Dot(map k | k in m :: Wrap(m[k]))
    case _ => v
  }

  /** The data a value holds, forgetting at every depth whether a mapping is a plain dict or a `DotDictify`. */
  function Erase(v: Value): Value
  {
    match v
    case Plain(m) => Plain(map k | k in m :: Erase(m[k]))
    case Dot(m) => Plain(map k | k in m :: Erase(m[k]))
    case _ => v
  }

  /** Storing a value keeps its data: the same keys at every depth, with the same scalars and `None`s under them. */
  lemma {:induction false} WrapKeepsData(v: Value)
    ensures Erase(Wrap(v)) == Erase(v)
  {
    match v
    case Plain(m) =>
      forall k | k in m
        ensures Erase(Wrap(m[k])) == Erase(m[k])
      {
        WrapKeepsData(m[k]);
      }
      var w := map k | k in m :: Wrap(m[k]);
      assert (map k | k in w :: Erase(w[k])) == (map k | k in m :: Erase(m[k]));
    case _ =>
  }

  /** No plain dict is reachable through nested mappings. */
  predicate Clean(v: Value)
  {
    match v
    case Plain(_) => false
    case Dot(m) => forall k :: k in m ==> Clean(m[k])
    case _ => true
  }

  /** A value whose every `DotDictify`, at any depth below plain dicts, is clean. */
  predicate WellFormed(v: Value)
  {
    match v
    case Plain(m) => forall k :: k in m ==> WellFormed(m[k])
    case Dot(_) => Clean(v)
    case _ => true
  }

  /** Storing a well-formed value leaves nothing but `DotDictify` reachable through mappings. */
  lemma {:induction false} WrapClean(v: Value)
    requires WellFormed(v)
    ensures Clean(Wrap(v))
  {
    match v
    case Plain(m) =>
      forall k | k in m
        ensures Clean(Wrap(m[k]))
      {
        WrapClean(m[k]);
      }
    case _ =>
  }

  /** A `DotDictify` object: the mapping it holds. */
  class DotDictify {
    var entries: map<string, Value>

    /** All values are clean, as they are whenever only well-formed values were stored. */
    ghost predicate Valid()
      reads this
    {
      forall k :: k in entries ==> Clean(entries[k])
    }

    /** `__init__` from a dict (or from `None`, as the empty map): every key through `__setitem__`. */
    constructor FromMap(m: map<string, Value>)
      ensures entries == map k | k in m :: Wrap(m[k])
      ensures (forall k :: k in m ==> WellFormed(m[k])) ==> Valid()
    {
      entries := map[];
      new;
      var todo := m.Keys;
      while todo != {}
        invariant todo <= m.Keys
        invariant entries == map k | k in m.Keys - todo :: Wrap(m[k])
        invariant (forall k :: k in m ==> WellFormed(m[k])) ==> Valid()
        decreases todo
      {
        var key :| key in todo;
        SetItem(key, m[key]);
        todo := todo - {key};
      }
    }

    /** `__setitem__` (and `__setattr__`): store `v`, converting a plain dict. */
    method SetItem(key: string, v: Value)
      modifies this
      ensures entries == old(entries)[key := Wrap(v)]
      ensures old(Valid()) && WellFormed(v) ==> Valid()
    {
      entries := entries[key := Wrap(v)];
      if WellFormed(v) {
        WrapClean(v);
      }
    }

    /**
     * `__getitem__` (and `__getattr__`): a present key, whatever it holds, `None` included, is
     * returned and nothing changes; a missing key gets a fresh empty `DotDictify`, which is returned.
     */
    method GetItem(key: string) returns (r: Value)
      modifies this
      ensures key in old(entries) ==> r == old(entries)[key] && entries == old(entries)
      ensures key !in old(entries) ==> r == Dot(map[]) && entries == old(entries)[key := r]
      ensures old(Valid()) ==> Valid() && Clean(r)
    {
      if key in entries {
        r := entries[key];
      } else {
        r := Dot(map[]);
        entries := entries[key := r];
      }
    }

    /** `dict.update`: the other mapping's entries replace these, bypassing `__setitem__`. */
    method Update(other: map<string, Value>)
      modifies this
      ensures entries == old(entries) + other
    {
      entries := entries + other;
    }
  }

  /** The constructor's check: `None` gives the empty map, a dict its entries, anything else TypeError. */
  method Make(value: Value) returns (r: Result<DotDictify>)
    ensures r.Err? <==> !IsDictOrNone(value)
    ensures r.Ok? ==> fresh(r.value) && r.value.entries == Stored(value)
  {
    if !IsDictOrNone(value) {
      return Err("expected dict");
    }
    var d := new DotDictify.FromMap(if value.Null? then map[] else value.entries);
    r := Ok(d);
  }

  /** The entries a `DotDictify` built from `value` holds (empty for `None` or a non-dict). */
  function Stored(value: Value): map<string, Value>
  {
    match value
    case Plain(m) => map k | k in m :: Wrap(m[k])
    case Dot(m) => map k | k in m :: Wrap(m[k])
    case _ => map[]
  }

  /** The top-level merge of parameter documents, left to right; TypeError if one is not a dict. */
  function Merged(docs: seq<Value>): Result<map<string, Value>>
  {
    if docs == [] then Ok(map[])
    else
      var init := Merged(docs[..|docs| - 1]);
      var last := docs[|docs| - 1];
      if init.Err? || !IsDictOrNone(last) then Err("expected dict")
      else Ok(init.value + Stored(last))
  }

  /**
   * `load_params`: each parsed document becomes a `DotDictify` and is merged into the result with
   * `update`, so a later document's top-level key replaces the earlier value as a whole.
   */
  method LoadParams(docs: seq<Value>) returns (r: Result<map<string, Value>>)
    ensures r == Merged(docs)
  {
    var acc := new DotDictify.FromMap(map[]);
    var i := 0;
    while i < |docs|
      invariant 0 <= i <= |docs|
      invariant Merged(docs[..i]) == Ok(acc.entries)
    {
      assert docs[..i + 1][..i] == docs[..i];
      var d := Make(docs[i]);
      if d.Err? {
        MergedErr(docs, i);
        return Err("expected dict");
      }
      acc.Update(d.value.entries);
      i := i + 1;
    }
    assert docs[..|docs|] == docs;
    r := Ok(acc.entries);
  }

  /** Merging fails exactly when some document is neither a dict nor `None`. */
  lemma {:induction false} MergedErr(docs: seq<Value>, i: nat)
    requires i < |docs| && !IsDictOrNone(docs[i])
    ensures Merged(docs).Err?
    decreases |docs|
  {
    if i < |docs| - 1 {
      MergedErr(docs[..|docs| - 1], i);
    }
  }

  /** A merge that succeeds had only dicts and `None` to merge. */
  lemma {:induction false} MergedOk(docs: seq<Value>)
    requires forall i :: 0 <= i < |docs| ==> IsDictOrNone(docs[i])
    ensures Merged(docs).Ok?
  {
    if docs != [] {
      MergedOk(docs[..|docs| - 1]);
    }
  }

  /**
   * Last file wins: key k of the merge is present exactly when some document has it, and holds
   * what the last such document stored under it.
   */
  lemma {:induction false} MergedLastWins(docs: seq<Value>, k: string, i: nat)
    requires Merged(docs).Ok? && i < |docs| && k in Stored(docs[i])
    requires forall j :: i < j < |docs| ==> k !in Stored(docs[j])
    ensures k in Merged(docs).value && Merged(docs).value[k] == Stored(docs[i])[k]
  {
    var init := docs[..|docs| - 1];
    if i < |docs| - 1 {
      MergedLastWins(init, k, i);
    }
  }

  /** A key no document has is not in the merge. */
  lemma {:induction false} MergedAbsent(docs: seq<Value>, k: string)
    requires Merged(docs).Ok?
    requires forall j :: 0 <= j < |docs| ==> k !in Stored(docs[j])
    ensures k !in Merged(docs).value
  {
    if docs != [] {
      MergedAbsent(docs[..|docs| - 1], k);
    }
  }

  /** Documents that are well formed merge into a mapping through which only `DotDictify` is reachable. */
  lemma {:induction false} MergedClean(docs: seq<Value>)
    requires Merged(docs).Ok?
    requires forall i :: 0 <= i < |docs| ==> WellFormed(docs[i])
    ensures forall k :: k in Merged(docs).value ==> Clean(Merged(docs).value[k])
  {
    if docs != [] {
      var last := docs[|docs| - 1];
      MergedClean(docs[..|docs| - 1]);
      if last.Plain? {
        forall k | k in last.entries
          ensures Clean(Wrap(last.entries[k]))
        {
          WrapClean(last.entries[k]);
        }
      } else if last.Dot? {
        forall k | k in last.entries
          ensures Clean(Wrap(last.entries[k]))
        {
          assert Clean(last.entries[k]);
        }
      }
      assert Merged(docs).value == Merged(docs[..|docs| - 1]).value + Stored(last);
    }
  }
}
