/** The result-selector projection `filter_object`. A selector is a list whose
    elements are either a string, which copies that key of the result
    verbatim if it is there, or a pair `[key, subselector]`, which projects
    the nested dict (or each dict of the nested list) at `key` through
    `subselector` and keeps only non-empty projections. Elements of any
    other kind are ignored, and a selector that is not a list selects
    nothing. The same code appears in both server files. */
module Selector {
  import opened Json

  type Fields = map<Key, Value>

  /** The dict `filter_object(obj, sel)` returns, or the exception it raises. */
  function Project(obj: Value, sel: Value): Result<Fields, Error>
    decreases sel, 1
  {
    if sel.Arr? then ProjectPrefix(obj, sel, |sel.items|) else Ok(map[])
  }

  /** The projection after the first `n` selector elements have been applied,
      left to right. */
  function ProjectPrefix(obj: Value, sel: Value, n: nat): Result<Fields, Error>
    requires sel.Arr? && n <= |sel.items|
    decreases sel, 0, n
  {
    if n == 0 then Ok(map[])
    else
      match ProjectPrefix(obj, sel, n - 1)
      case Err(e) => Err(e)
      case Ok(acc) => SelectOne(obj, sel.items[n - 1], acc)
  }

  /** Applies one selector element to `obj`, extending the projection `acc`. */
  function SelectOne(obj: Value, element: Value, acc: Fields): Result<Fields, Error>
    decreases element
  {
    match element
    case Str(name) =>
      (match Contains(obj, name)
       case Err(e) => Err(e)
       case Ok(present) =>
         if !present then Ok(acc)
         else
           match Subscript(obj, element)
           case Err(e) => Err(e)
           case Ok(v) => Ok(acc[Name(name) := v]))
    case Arr(pair) =>
      if |pair| == 0 then Err(IndexError)
      else
        (match Subscript(obj, pair[0])
         case Err(e) => Err(e)
         case Ok(nested) =>
           if |pair| < 2 then Err(IndexError)
           else if nested.Arr? then
             match ProjectList(nested.items, pair[1], |nested.items|)
             case Err(e) => Err(e)
             case Ok(kept) =>
               if |kept| > 0 then Ok(acc[DictKey(pair[0]).value := Arr(kept)]) else Ok(acc)
           else if nested.Obj? then
             match Project(nested, pair[1])
             case Err(e) => Err(e)
             case Ok(m) =>
               if |m| > 0 then Ok(acc[DictKey(pair[0]).value := Obj(m)]) else Ok(acc)
           else Ok(acc))
    case _ => Ok(acc)
  }

  /** The non-empty projections of `elems[..n]` through `sub`, in order. */
  function ProjectList(elems: seq<Value>, sub: Value, n: nat): Result<seq<Value>, Error>
    requires n <= |elems|
    decreases sub, 2, n
  {
    if n == 0 then Ok([])
    else
      match ProjectList(elems, sub, n - 1)
      case Err(e) => Err(e)
      case Ok(kept) =>
        match Project(elems[n - 1], sub)
        case Err(e) => Err(e)
        case Ok(m) => if |m| > 0 then Ok(kept + [Obj(m)]) else Ok(kept)
  }

  /** `filter_object`: builds the projection in a dict, element by element,
      and the kept projections of a nested list in a list; an exception
      raised on the way propagates to the caller. */
  method FilterObject(obj: Value, arr: Value) returns (r: Result<Fields, Error>)
    ensures r == Project(obj, arr)
    decreases arr
  {
    if !arr.Arr? {
      return Ok(map[]);
    }
    var filtered: Fields := map[];
    var i := 0;
    while i < |arr.items|
      invariant 0 <= i <= |arr.items|
      invariant ProjectPrefix(obj, arr, i) == Ok(filtered)
    {
      var key := arr.items[i];
      var step := FilterStep(obj, key, filtered);
      if step.Err? {
        ErrorStops(obj, arr, i + 1, |arr.items|);
        return step;
      }
      filtered := step.value;
      i := i + 1;
    }
    return Ok(filtered);
  }

  /** One iteration of `filter_object`'s loop over the selector. */
  method FilterStep(obj: Value, key: Value, filtered: Fields) returns (r: Result<Fields, Error>)
    ensures r == SelectOne(obj, key, filtered)
    decreases key, 0
  {
    if key.Str? {
      var present := Contains(obj, key.s);
      if present.Err? {
        return Err(present.error);
      }
      if present.value {
        var v := Subscript(obj, key);
        if v.Err? {
          return Err(v.error);
        }
        return Ok(filtered[Name(key.s) := v.value]);
      }
      return Ok(filtered);
    } else if key.Arr? {
      if |key.items| == 0 {
        return Err(IndexError);
      }
      var nestedObj := Subscript(obj, key.items[0]);
      if nestedObj.Err? {
        return Err(nestedObj.error);
      }
      if |key.items| < 2 {
        return Err(IndexError);
      }
      var nested, nestedArr := nestedObj.value, key.items[1];
      if nested.Arr? {
        var filteredArr: seq<Value> := [];
        var j := 0;
        while j < |nested.items|
          invariant 0 <= j <= |nested.items|
          invariant ProjectList(nested.items, nestedArr, j) == Ok(filteredArr)
        {
          var sub := FilterObject(nested.items[j], nestedArr);
          if sub.Err? {
            ListErrorStops(nested.items, nestedArr, j + 1, |nested.items|);
            return Err(sub.error);
          }
          if |sub.value| > 0 {
            filteredArr := filteredArr + [Obj(sub.value)];
          }
          j := j + 1;
        }
        if |filteredArr| > 0 {
          return Ok(filtered[DictKey(key.items[0]).value := Arr(filteredArr)]);
        }
        return Ok(filtered);
      } else if nested.Obj? {
        var sub := FilterObject(nested, nestedArr);
        if sub.Err? {
          return Err(sub.error);
        }
        if |sub.value| > 0 {
          return Ok(filtered[DictKey(key.items[0]).value := Obj(sub.value)]);
        }
        return Ok(filtered);
      }
      return Ok(filtered);
    }
    return Ok(filtered);
  }

  /** Once an element raises, the rest of the selector is never applied. */
  lemma {:induction false} ErrorStops(obj: Value, sel: Value, n: nat, m: nat)
    requires sel.Arr? && n <= m <= |sel.items|
    requires ProjectPrefix(obj, sel, n).Err?
    ensures ProjectPrefix(obj, sel, m) == ProjectPrefix(obj, sel, n)
    decreases m
  {
    if m > n {
      ErrorStops(obj, sel, n, m - 1);
    }
  }

  /** Once a list element's projection raises, the remaining elements are never projected. */
  lemma {:induction false} ListErrorStops(elems: seq<Value>, sub: Value, n: nat, m: nat)
    requires n <= m <= |elems|
    requires ProjectList(elems, sub, n).Err?
    ensures ProjectList(elems, sub, m) == ProjectList(elems, sub, n)
    decreases m
  {
    if m > n {
      ListErrorStops(elems, sub, n, m - 1);
    }
  }

  /** The key a selector element writes to, if it can write one. */
  function SlotOf(element: Value): Option<Key> {
    if element.Str? then Some(Name(element.s))
    else if element.Arr? && |element.items| > 0 then DictKey(element.items[0])
    else None
  }

  lemma {:induction false} PrefixKeysAreSelected(obj: Value, sel: Value, n: nat)
    requires sel.Arr? && n <= |sel.items|
    requires ProjectPrefix(obj, sel, n).Ok?
    ensures forall k :: k in ProjectPrefix(obj, sel, n).value ==>
      exists i :: 0 <= i < n && SlotOf(sel.items[i]) == Some(k)
  {
    if n > 0 {
      PrefixKeysAreSelected(obj, sel, n - 1);
    }
  }

  /** Every key of a projection is one the selector names: the output keys
      are a subset of the selector's keys. */
  lemma ProjectionKeysAreSelected(obj: Value, sel: Value)
    requires Project(obj, sel).Ok?
    ensures forall k :: k in Project(obj, sel).value ==>
      sel.Arr? && exists i :: 0 <= i < |sel.items| && SlotOf(sel.items[i]) == Some(k)
  {
    if sel.Arr? {
      PrefixKeysAreSelected(obj, sel, |sel.items|);
    }
  }

  /** The dict restricted to the given keys. */
  function Restrict(fields: Fields, keys: set<Key>): (r: Fields)
    ensures r.Keys <= keys
  {
    map k | k in fields && k in keys :: fields[k]
  }

  /** A selector made of plain keys only. */
  predicate Flat(sel: Value) {
    sel.Arr? && forall i :: 0 <= i < |sel.items| ==> sel.items[i].Str?
  }

  ghost function NamesIn(sel: Value, n: nat): set<Key>
    requires Flat(sel) && n <= |sel.items|
  {
    set i | 0 <= i < n :: Name(sel.items[i].s)
  }

  lemma {:induction false} FlatPrefixRestricts(fields: Fields, sel: Value, n: nat)
    requires Flat(sel) && n <= |sel.items|
    ensures ProjectPrefix(Obj(fields), sel, n) == Ok(Restrict(fields, NamesIn(sel, n)))
  {
    if n == 0 {
      assert NamesIn(sel, 0) == {};
    } else {
      FlatPrefixRestricts(fields, sel, n - 1);
      var name := sel.items[n - 1].s;
      assert NamesIn(sel, n) == NamesIn(sel, n - 1) + {Name(name)};
      var acc := Restrict(fields, NamesIn(sel, n - 1));
      if Name(name) in fields {
        assert acc[Name(name) := fields[Name(name)]] == Restrict(fields, NamesIn(sel, n));
      } else {
        assert acc == Restrict(fields, NamesIn(sel, n));
      }
    }
  }

  /** A selector of plain keys keeps exactly the named keys that the dict
      has, each with its value copied verbatim. */
  lemma FlatSelectorRestricts(fields: Fields, sel: Value)
    requires Flat(sel)
    ensures Project(Obj(fields), sel) == Ok(Restrict(fields, NamesIn(sel, |sel.items|)))
  {
    FlatPrefixRestricts(fields, sel, |sel.items|);
  }

  /** Projecting a dict twice through the same plain-key selector gives the
      same dict as projecting it once. */
  lemma FlatProjectionIdempotent(fields: Fields, sel: Value)
    requires Flat(sel)
    ensures Project(Obj(fields), sel).Ok?
    ensures Project(Obj(Project(Obj(fields), sel).value), sel) == Project(Obj(fields), sel)
  {
    var names := NamesIn(sel, |sel.items|);
    FlatSelectorRestricts(fields, sel);
    FlatSelectorRestricts(Restrict(fields, names), sel);
    assert Restrict(Restrict(fields, names), names) == Restrict(fields, names);
  }

  lemma {:induction false} PrefixFindsPairKeys(fields: Fields, sel: Value, n: nat)
    requires sel.Arr? && n <= |sel.items|
    requires ProjectPrefix(Obj(fields), sel, n).Ok?
    ensures forall i :: 0 <= i < n && sel.items[i].Arr? ==>
      |sel.items[i].items| >= 2 && DictKey(sel.items[i].items[0]).Some? &&
      DictKey(sel.items[i].items[0]).value in fields
  {
    if n > 0 {
      PrefixFindsPairKeys(fields, sel, n - 1);
    }
  }

  /** A projection of a dict succeeds only if every pair element has a
      subselector and names a key the dict has: a pair whose key is missing
      raises (a `KeyError`), it is not skipped. */
  lemma ProjectionFindsPairKeys(fields: Fields, sel: Value)
    requires sel.Arr? && Project(Obj(fields), sel).Ok?
    ensures forall i :: 0 <= i < |sel.items| && sel.items[i].Arr? ==>
      |sel.items[i].items| >= 2 && DictKey(sel.items[i].items[0]).Some? &&
      DictKey(sel.items[i].items[0]).value in fields
  {
    PrefixFindsPairKeys(fields, sel, |sel.items|);
  }

  /** A value that a pair element stores: a non-empty dict, or a non-empty
      list of non-empty dicts. */
  predicate NonEmptyProjection(v: Value) {
    (v.Obj? && |v.fields| > 0) ||
    (v.Arr? && |v.items| > 0 && forall j :: 0 <= j < |v.items| ==> v.items[j].Obj? && |v.items[j].fields| > 0)
  }

  /** `k` is the key of some plain-key element among the first `n`. */
  predicate NamedByString(sel: Value, n: nat, k: Key)
    requires sel.Arr? && n <= |sel.items|
  {
    exists i :: 0 <= i < n && sel.items[i].Str? && k == Name(sel.items[i].s)
  }

  lemma {:induction false} ListKeepsNonEmpty(elems: seq<Value>, sub: Value, n: nat)
    requires n <= |elems|
    requires ProjectList(elems, sub, n).Ok?
    ensures |ProjectList(elems, sub, n).value| <= n
    ensures forall j :: 0 <= j < |ProjectList(elems, sub, n).value| ==>
      ProjectList(elems, sub, n).value[j].Obj? && |ProjectList(elems, sub, n).value[j].fields| > 0
  {
    if n > 0 {
      ListKeepsNonEmpty(elems, sub, n - 1);
    }
  }

  lemma {:induction false} PrefixPairsNonEmpty(obj: Value, sel: Value, n: nat)
    requires sel.Arr? && n <= |sel.items|
    requires ProjectPrefix(obj, sel, n).Ok?
    ensures forall k :: k in ProjectPrefix(obj, sel, n).value && !NamedByString(sel, n, k) ==>
      NonEmptyProjection(ProjectPrefix(obj, sel, n).value[k])
  {
    if n > 0 {
      PrefixPairsNonEmpty(obj, sel, n - 1);
      var element := sel.items[n - 1];
      if element.Arr? && |element.items| >= 2 {
        var nested := Subscript(obj, element.items[0]);
        if nested.Ok? && nested.value.Arr? {
          ListKeepsNonEmpty(nested.value.items, element.items[1], |nested.value.items|);
        }
      }
      forall k | k in ProjectPrefix(obj, sel, n).value && !NamedByString(sel, n, k)
        ensures NonEmptyProjection(ProjectPrefix(obj, sel, n).value[k])
      {
        assert !NamedByString(sel, n - 1, k);
      }
    }
  }

  /** Empty projections are dropped: every key that only pair elements
      select holds a non-empty dict or a non-empty list of non-empty dicts. */
  lemma PairProjectionsAreNonEmpty(obj: Value, sel: Value)
    requires sel.Arr? && Project(obj, sel).Ok?
    ensures forall k :: k in Project(obj, sel).value && !NamedByString(sel, |sel.items|, k) ==>
      NonEmptyProjection(Project(obj, sel).value[k])
  {
    PrefixPairsNonEmpty(obj, sel, |sel.items|);
  }

  /** An element that does not write slot `k` leaves `k` as it found it. */
  lemma SelectOneFrame(obj: Value, element: Value, acc: Fields, k: Key)
    requires SelectOne(obj, element, acc).Ok?
    requires SlotOf(element) != Some(k)
    ensures k in SelectOne(obj, element, acc).value <==> k in acc
    ensures k in acc ==> SelectOne(obj, element, acc).value[k] == acc[k]
  {
  }

  /** Elements `m..n-1` that do not write slot `k` leave it as the first `m`
      elements left it. */
  lemma {:induction false} PrefixFrame(obj: Value, sel: Value, m: nat, n: nat, k: Key)
    requires sel.Arr? && m <= n <= |sel.items|
    requires ProjectPrefix(obj, sel, n).Ok?
    requires forall j :: m <= j < n ==> SlotOf(sel.items[j]) != Some(k)
    ensures ProjectPrefix(obj, sel, m).Ok?
    ensures k in ProjectPrefix(obj, sel, n).value <==> k in ProjectPrefix(obj, sel, m).value
    ensures k in ProjectPrefix(obj, sel, m).value ==>
      ProjectPrefix(obj, sel, n).value[k] == ProjectPrefix(obj, sel, m).value[k]
    decreases n
  {
    if n > m {
      PrefixFrame(obj, sel, m, n - 1, k);
      SelectOneFrame(obj, sel.items[n - 1], ProjectPrefix(obj, sel, n - 1).value, k);
    }
  }

  /** A pair `[k, sub]` that is the only element writing slot `k` decides
      that slot: for a nested dict, `k` is kept exactly when the dict's
      projection through `sub` is non-empty, and then holds it; for a nested
      list, exactly when some element's projection is non-empty, and then
      holds the kept projections; for any other value, `k` is left out. */
  lemma PairDecidesSlot(fields: Fields, sel: Value, i: nat)
    requires sel.Arr? && i < |sel.items|
    requires sel.items[i].Arr? && |sel.items[i].items| >= 2 && DictKey(sel.items[i].items[0]).Some?
    requires forall j :: 0 <= j < |sel.items| && j != i ==>
      SlotOf(sel.items[j]) != DictKey(sel.items[i].items[0])
    requires Project(Obj(fields), sel).Ok?
    ensures DictKey(sel.items[i].items[0]).value in fields
    ensures var k := DictKey(sel.items[i].items[0]).value;
      var v := fields[k];
      var sub := sel.items[i].items[1];
      var out := Project(Obj(fields), sel).value;
      (v.Obj? ==>
         Project(v, sub).Ok? &&
         (k in out <==> |Project(v, sub).value| > 0) &&
         (k in out ==> out[k] == Obj(Project(v, sub).value))) &&
      (v.Arr? ==>
         ProjectList(v.items, sub, |v.items|).Ok? &&
         (k in out <==> |ProjectList(v.items, sub, |v.items|).value| > 0) &&
         (k in out ==> out[k] == Arr(ProjectList(v.items, sub, |v.items|).value))) &&
      (!v.Obj? && !v.Arr? ==> k !in out)
  {
    var k := DictKey(sel.items[i].items[0]).value;
    ProjectionFindsPairKeys(fields, sel);
    PrefixFrame(Obj(fields), sel, i + 1, |sel.items|, k);
    PrefixKeysAreSelected(Obj(fields), sel, i);
  }

  /** A string element `s` that alone writes `s` keeps it exactly when the
      dict has it, and then holds the dict's value verbatim. */
  lemma StringDecidesSlot(fields: Fields, sel: Value, i: nat)
    requires sel.Arr? && i < |sel.items| && sel.items[i].Str?
    requires forall j :: 0 <= j < |sel.items| && j != i ==>
      SlotOf(sel.items[j]) != Some(Name(sel.items[i].s))
    requires Project(Obj(fields), sel).Ok?
    ensures var k := Name(sel.items[i].s);
      var out := Project(Obj(fields), sel).value;
      (k in out <==> k in fields) && (k in out ==> out[k] == fields[k])
  {
    var k := Name(sel.items[i].s);
    PrefixFrame(Obj(fields), sel, i + 1, |sel.items|, k);
    PrefixKeysAreSelected(Obj(fields), sel, i);
  }

  /** The projections kept from a list are exactly the non-empty projections
      of its elements, every one of which succeeded. */
  lemma {:induction false} ListKeepsExactly(elems: seq<Value>, sub: Value, n: nat)
    requires n <= |elems| && ProjectList(elems, sub, n).Ok?
    ensures forall j :: 0 <= j < n ==> Project(elems[j], sub).Ok?
    ensures forall j :: 0 <= j < n && Project(elems[j], sub).Ok? && |Project(elems[j], sub).value| > 0 ==>
      Obj(Project(elems[j], sub).value) in ProjectList(elems, sub, n).value
    ensures forall w :: w in ProjectList(elems, sub, n).value ==>
      exists j :: 0 <= j < n && Project(elems[j], sub).Ok? &&
        |Project(elems[j], sub).value| > 0 && w == Obj(Project(elems[j], sub).value)
  {
    if n > 0 {
      ListKeepsExactly(elems, sub, n - 1);
    }
  }

  /** What a nested list keeps from its elements' projections: each
      non-empty one, as a dict, in element order; an exception raised by
      an element is kept as is. */
  function Kept(projections: seq<Result<Fields, Error>>): (r: Result<seq<Value>, Error>)
    ensures r.Ok? ==> |r.value| <= |projections|
  {
    if projections == [] then Ok([])
    else
      match projections[0]
      case Err(e) => Err(e)
      case Ok(m) =>
        match Kept(projections[1..])
        case Err(e) => Err(e)
        case Ok(rest) => Ok((if |m| > 0 then [Obj(m)] else []) + rest)
  }

  /** Keeping from a list with one more projection at its end. */
  lemma {:induction false} KeptAppend(projections: seq<Result<Fields, Error>>, last: Result<Fields, Error>)
    ensures Kept(projections).Err? ==> Kept(projections + [last]) == Kept(projections)
    ensures Kept(projections).Ok? && last.Err? ==> Kept(projections + [last]) == Err(last.error)
    ensures Kept(projections).Ok? && last.Ok? ==>
      Kept(projections + [last]) ==
        Ok(Kept(projections).value + (if |last.value| > 0 then [Obj(last.value)] else []))
  {
    var longer := projections + [last];
    if projections != [] {
      assert longer[0] == projections[0] && longer[1..] == projections[1..] + [last];
      KeptAppend(projections[1..], last);
      if projections[0].Ok? && Kept(projections[1..]).Ok? && last.Ok? {
        var head: seq<Value> := if |projections[0].value| > 0 then [Obj(projections[0].value)] else [];
        var tail: seq<Value> := if |last.value| > 0 then [Obj(last.value)] else [];
        assert Kept(longer) == Ok(head + (Kept(projections[1..]).value + tail));
        assert head + (Kept(projections[1..]).value + tail) == (head + Kept(projections[1..]).value) + tail;
      }
    } else {
      assert longer[0] == last && longer[1..] == [];
      if last.Ok? {
        var tail: seq<Value> := if |last.value| > 0 then [Obj(last.value)] else [];
        assert Kept(longer) == Ok(tail + []);
        assert tail + [] == [] + tail;
      }
    }
  }

  /** The projections of the first `n` elements of a list, one per element. */
  function ElementProjections(elems: seq<Value>, sub: Value, n: nat): (r: seq<Result<Fields, Error>>)
    requires n <= |elems|
    ensures |r| == n && forall j :: 0 <= j < n ==> r[j] == Project(elems[j], sub)
  {
    seq(n, j requires 0 <= j < n => Project(elems[j], sub))
  }

  /** One step of a nested list's projection, as a fact to call. */
  lemma ListUnfold(elems: seq<Value>, sub: Value, n: nat)
    requires 0 < n <= |elems|
    ensures ProjectList(elems, sub, n - 1).Err? ==> ProjectList(elems, sub, n) == ProjectList(elems, sub, n - 1)
    ensures ProjectList(elems, sub, n - 1).Ok? && Project(elems[n - 1], sub).Err? ==>
      ProjectList(elems, sub, n) == Err(Project(elems[n - 1], sub).error)
    ensures ProjectList(elems, sub, n - 1).Ok? && Project(elems[n - 1], sub).Ok? ==>
      ProjectList(elems, sub, n) == Ok(ProjectList(elems, sub, n - 1).value +
        (if |Project(elems[n - 1], sub).value| > 0 then [Obj(Project(elems[n - 1], sub).value)] else []))
  {
    var kept := ProjectList(elems, sub, n - 1);
    var last := Project(elems[n - 1], sub);
    if kept.Ok? && last.Ok? && |last.value| == 0 {
      assert kept.value + [] == kept.value;
    }
  }

  /** A nested list keeps exactly the non-empty projections of its elements,
      in element order and each as often as it occurs, or raises the first
      exception an element's projection raises. */
  lemma {:induction false} ListKeepsInOrder(elems: seq<Value>, sub: Value, n: nat)
    requires n <= |elems|
    ensures ProjectList(elems, sub, n) == Kept(ElementProjections(elems, sub, n))
  {
    if n > 0 {
      var before := ElementProjections(elems, sub, n - 1);
      var last := Project(elems[n - 1], sub);
      ListKeepsInOrder(elems, sub, n - 1);
      assert ElementProjections(elems, sub, n) == before + [last];
      KeptAppend(before, last);
      ListUnfold(elems, sub, n);
    }
  }

  /** The elements a projection acts on, strings and lists, in order. */
  function Relevant(elems: seq<Value>): (r: seq<Value>)
    ensures |r| <= |elems|
    ensures forall j :: 0 <= j < |r| ==> r[j] in elems && (r[j].Str? || r[j].Arr?)
  {
    if elems == [] then []
    else
      var last := elems[|elems| - 1];
      Relevant(elems[..|elems| - 1]) + (if last.Str? || last.Arr? then [last] else [])
  }

  /** Two selectors that agree on their first `k` elements agree on the
      projection those elements build. */
  lemma {:induction false} PrefixStable(obj: Value, a: seq<Value>, b: seq<Value>, k: nat)
    requires k <= |a| && k <= |b| && a[..k] == b[..k]
    ensures ProjectPrefix(obj, Arr(a), k) == ProjectPrefix(obj, Arr(b), k)
  {
    if k > 0 {
      assert a[..k - 1] == a[..k][..k - 1] && b[..k - 1] == b[..k][..k - 1];
      assert a[k - 1] == a[..k][k - 1] && b[k - 1] == b[..k][k - 1];
      PrefixStable(obj, a, b, k - 1);
    }
  }

  lemma RelevantStep(elems: seq<Value>, n: nat)
    requires 0 < n <= |elems|
    ensures var x := elems[n - 1];
      Relevant(elems[..n]) == Relevant(elems[..n - 1]) + (if x.Str? || x.Arr? then [x] else [])
  {
    assert elems[..n][..n - 1] == elems[..n - 1];
  }

  /** One step of the projection, as a fact to call. */
  lemma PrefixUnfold(obj: Value, sel: Value, n: nat)
    requires sel.Arr? && 0 < n <= |sel.items|
    ensures ProjectPrefix(obj, sel, n - 1).Err? ==> ProjectPrefix(obj, sel, n) == ProjectPrefix(obj, sel, n - 1)
    ensures ProjectPrefix(obj, sel, n - 1).Ok? ==>
      ProjectPrefix(obj, sel, n) == SelectOne(obj, sel.items[n - 1], ProjectPrefix(obj, sel, n - 1).value)
  {
  }

  /** Appending an element to a selector applies it after the others. */
  lemma AppendStep(obj: Value, before: seq<Value>, x: Value)
    ensures ProjectPrefix(obj, Arr(before), |before|).Err? ==>
      ProjectPrefix(obj, Arr(before + [x]), |before| + 1) == ProjectPrefix(obj, Arr(before), |before|)
    ensures ProjectPrefix(obj, Arr(before), |before|).Ok? ==>
      ProjectPrefix(obj, Arr(before + [x]), |before| + 1) ==
        SelectOne(obj, x, ProjectPrefix(obj, Arr(before), |before|).value)
  {
    var after := before + [x];
    assert after[..|before|] == before[..|before|] && after[|before|] == x;
    PrefixStable(obj, after, before, |before|);
    PrefixUnfold(obj, Arr(after), |after|);
  }

  /** A string or a list appended to a selector is applied after the others. */
  lemma KeptStep(obj: Value, elems: seq<Value>, n: nat)
    requires 0 < n <= |elems| && (elems[n - 1].Str? || elems[n - 1].Arr?)
    requires ProjectPrefix(obj, Arr(elems), n - 1) ==
      ProjectPrefix(obj, Arr(Relevant(elems[..n - 1])), |Relevant(elems[..n - 1])|)
    ensures ProjectPrefix(obj, Arr(elems), n) ==
      ProjectPrefix(obj, Arr(Relevant(elems[..n])), |Relevant(elems[..n])|)
  {
    var x := elems[n - 1];
    var before := Relevant(elems[..n - 1]);
    PrefixUnfold(obj, Arr(elems), n);
    RelevantStep(elems, n);
    AppendStep(obj, before, x);
    assert Relevant(elems[..n]) == before + [x];
  }

  /** Any other element leaves the projection as it was. */
  lemma DroppedStep(obj: Value, elems: seq<Value>, n: nat)
    requires 0 < n <= |elems| && !elems[n - 1].Str? && !elems[n - 1].Arr?
    requires ProjectPrefix(obj, Arr(elems), n - 1) ==
      ProjectPrefix(obj, Arr(Relevant(elems[..n - 1])), |Relevant(elems[..n - 1])|)
    ensures ProjectPrefix(obj, Arr(elems), n) ==
      ProjectPrefix(obj, Arr(Relevant(elems[..n])), |Relevant(elems[..n])|)
  {
    var previous := ProjectPrefix(obj, Arr(elems), n - 1);
    PrefixUnfold(obj, Arr(elems), n);
    RelevantStep(elems, n);
    assert Relevant(elems[..n]) == Relevant(elems[..n - 1]) + [] == Relevant(elems[..n - 1]);
    if previous.Ok? {
      assert SelectOne(obj, elems[n - 1], previous.value) == previous;
    }
  }

  lemma {:induction false} IgnoredPrefix(obj: Value, elems: seq<Value>, n: nat)
    requires n <= |elems|
    ensures ProjectPrefix(obj, Arr(elems), n) ==
      ProjectPrefix(obj, Arr(Relevant(elems[..n])), |Relevant(elems[..n])|)
  {
    if n > 0 {
      IgnoredPrefix(obj, elems, n - 1);
      if elems[n - 1].Str? || elems[n - 1].Arr? {
        KeptStep(obj, elems, n);
      } else {
        DroppedStep(obj, elems, n);
      }
    }
  }

  /** Elements that are neither a string nor a list are ignored: dropping
      them leaves the projection, and any exception, unchanged. */
  lemma IgnoredElementsDoNotMatter(obj: Value, sel: Value)
    requires sel.Arr?
    ensures Project(obj, sel) == Project(obj, Arr(Relevant(sel.items)))
  {
    IgnoredPrefix(obj, sel.items, |sel.items|);
    assert sel.items[..|sel.items|] == sel.items;
  }

  /** Values that neither `in` nor `[]` accepts: `None`, booleans and numbers. */
  predicate Scalar(v: Value) {
    !(v.Obj? || v.Arr? || v.Str?)
  }

  lemma {:induction false} ScalarPrefix(obj: Value, sel: Value, n: nat)
    requires Scalar(obj) && sel.Arr? && n <= |sel.items|
    ensures ProjectPrefix(obj, sel, n).Ok? <==>
      forall i :: 0 <= i < n ==> !sel.items[i].Str? && !sel.items[i].Arr?
    ensures ProjectPrefix(obj, sel, n).Ok? ==> ProjectPrefix(obj, sel, n).value == map[]
  {
    if n > 0 {
      ScalarPrefix(obj, sel, n - 1);
      if ProjectPrefix(obj, sel, n - 1).Err? {
        assert ProjectPrefix(obj, sel, n).Err?;
      }
    }
  }

  /** Projecting `None`, a boolean or a number raises as soon as the selector
      holds a string or a list, and gives `{}` otherwise. */
  lemma ScalarProjection(obj: Value, sel: Value)
    requires Scalar(obj) && sel.Arr?
    ensures Project(obj, sel).Ok? <==>
      forall i :: 0 <= i < |sel.items| ==> !sel.items[i].Str? && !sel.items[i].Arr?
    ensures Project(obj, sel).Ok? ==> Project(obj, sel).value == map[]
  {
    ScalarPrefix(obj, sel, |sel.items|);
  }
}

/** Worked examples of the projection. */
module SelectorExamples {
  import opened Json
  import opened Selector

  /** The selector of the sample request in the module header comment. */
  function SampleSelector(): Value {
    Arr([Str("status"), Arr([Str("result"), Arr([Str("quotient")])])])
  }

  /** A result of the sample `math` call, with fields the selector does not name. */
  function SampleResult(): Value {
    Obj(map[
      Name("status") := Str("Successfully divided 22 by 7"),
      Name("result") := Obj(map[Name("quotient") := Float(3.1415926535), Name("remainder") := Int(1)]),
      Name("elapsed") := Int(2)])
  }

  /** The sample projects to `{status, result: {quotient}}`. */
  lemma SampleProjection()
    ensures Project(SampleResult(), SampleSelector()) ==
      Ok(map[
        Name("status") := Str("Successfully divided 22 by 7"),
        Name("result") := Obj(map[Name("quotient") := Float(3.1415926535)])])
  {
  }

  /** Projecting a projection again can raise: the pair `["a", ["z"]]` drops
      the key "a" when nothing under it is selected, and a second pass then
      looks "a" up in a dict that no longer has it. */
  lemma ReprojectionCanRaise()
    ensures var sel := Arr([Arr([Str("a"), Arr([Str("z")])])]);
      var once := Project(Obj(map[Name("a") := Obj(map[Name("x") := Int(1)])]), sel);
      once == Ok(map[]) && Project(Obj(once.value), sel) == Err(KeyError)
  {
  }
}
