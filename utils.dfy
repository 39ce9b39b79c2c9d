/**
 * `DottedDict`: a dictionary whose keys can also be read as attributes. Its
 * item storage and its attribute view (`__dict__`) are two maps that every
 * write updates together; keys must pass an identifier check that raises
 * `SyntaxError`, and dict values are wrapped as `DottedDict`s when the
 * object is built.
 */
module Utils {
  import opened Wrappers
  import opened Exceptions

  // ---------------------------------------------------------------------------
  // The identifier check

  const PYTHON_KEYWORDS: seq<string> := [
    "False", "None", "True", "and", "as", "assert", "break", "class",
    "continue", "def", "del", "elif", "else", "except", "finally",
    "for", "from", "global", "if", "import", "in", "is", "lambda",
    "nonlocal", "not", "or", "pass", "raise", "return", "try", "while",
    "with", "yield"
  ]

  /** Whether `word` occurs in `words`, searched one entry at a time. */
  predicate OccursIn(word: string, words: seq<string>) {
    words != [] && (words[0] == word || OccursIn(word, words[1..]))
  }

  lemma {:induction false} OccursInMembership(word: string, words: seq<string>)
    ensures OccursIn(word, words) <==> word in words
  {
    if words != [] {
      OccursInMembership(word, words[1..]);
      assert words == [words[0]] + words[1..];
    }
  }

  /** `identifier in python_keywords`. */
  predicate IsKeyword(identifier: string) {
    OccursIn(identifier, PYTHON_KEYWORDS)
  }

  /** Every Python keyword in the list is refused. */
  lemma KeywordsRaise(k: string)
    requires k in PYTHON_KEYWORDS
    ensures CheckIdentifier(k) == Err(SyntaxError)
  {
    OccursInMembership(k, PYTHON_KEYWORDS);
  }

  predicate IsIdentifierStart(c: char) {
    ('a' <= c <= 'z') || ('A' <= c <= 'Z') || c == '_'
  }

  predicate IsIdentifierChar(c: char) {
    IsIdentifierStart(c) || ('0' <= c <= '9')
  }

  /** The length of the longest prefix made of identifier characters. */
  function IdentifierRun(s: string): (n: nat)
    ensures n <= |s|
    ensures forall i :: 0 <= i < n ==> IsIdentifierChar(s[i])
    ensures n < |s| ==> !IsIdentifierChar(s[n])
  {
    if s == [] || !IsIdentifierChar(s[0]) then 0 else 1 + IdentifierRun(s[1..])
  }

  /**
   * `re.match('[a-zA-Z_][a-zA-Z0-9_]*', s)`: the length of the match at the
   * start of `s`, if any. The pattern is not anchored at the end.
   */
  function IdentifierPatternMatch(s: string): (r: Option<nat>)
    ensures r.Some? ==> (
      1 <= r.value <= |s| && (forall i :: 0 <= i < r.value ==> IsIdentifierChar(s[i])) &&
      (r.value < |s| ==> !IsIdentifierChar(s[r.value])))
  {
    if s != [] && IsIdentifierStart(s[0]) then Some(1 + IdentifierRun(s[1..])) else None
  }

  /**
   * `_is_valid_identifier`: true, or `SyntaxError` for a keyword or a string
   * whose first character is not a letter or `_`. Only the first character
   * decides, since the pattern may match a proper prefix.
   */
  function CheckIdentifier(identifier: string): (r: Result<bool, Error>)
    ensures r.Ok? <==> !IsKeyword(identifier) && |identifier| > 0 && IsIdentifierStart(identifier[0])
    ensures r.Ok? ==> r.value
    ensures r.Err? ==> r.error == SyntaxError
  {
    if !IsKeyword(identifier) && IdentifierPatternMatch(identifier).Some? then Ok(true)
    else Err(SyntaxError)
  }

  // ---------------------------------------------------------------------------
  // Values and their wrapping

  /**
   * A value stored in the dictionary: anything that is not a dict, a plain
   * dict, or a nested `DottedDict` (given by its contents).
   */
  datatype Value = Atom(text: string) | Mapping(entries: map<string, Value>) | Dotted(entries: map<string, Value>)

  /** No plain dict remains anywhere inside the value. */
  predicate NoPlainDicts(v: Value) {
    match v
    case Atom(_) => true
    case Mapping(_) => false
    case Dotted(entries) => forall k :: k in entries ==> NoPlainDicts(entries[k])
  }

  /** A key `__setitem__` accepts. */
  predicate ValidKey(key: string) {
    CheckIdentifier(key).Ok?
  }

  /** Every key inside the value, at every depth, passes the identifier check. */
  predicate Wrappable(v: Value) {
    v.Atom? || forall k :: k in v.entries ==> ValidKey(k) && Wrappable(v.entries[k])
  }

  /** The value with every dict, at every depth, turned into a `DottedDict` with the same keys. */
  function Wrapped(v: Value): (w: Value)
    ensures NoPlainDicts(w)
    ensures v.Atom? ==> w == v
    ensures !v.Atom? ==> w.Dotted? && w.entries.Keys == v.entries.Keys
  {
    if v.Atom? then v else Dotted(map k | k in v.entries :: Wrapped(v.entries[k]))
  }

  /**
   * `DottedDict(**value)` for a dict value, the value itself otherwise: every
   * key, at every depth, must pass the identifier check.
   */
  function Wrap(v: Value): (r: Result<Value, Error>)
    ensures r.Ok? <==> Wrappable(v)
    ensures r.Err? ==> r.error == SyntaxError
    ensures r.Ok? ==> NoPlainDicts(r.value) && r.value == Wrapped(v)
  {
    if Wrappable(v) then Ok(Wrapped(v)) else Err(SyntaxError)
  }

  /** The value with every `DottedDict`, at every depth, read back as a plain dict. */
  function Plain(v: Value): Value {
    if v.Atom? then v else Mapping(map k | k in v.entries :: Plain(v.entries[k]))
  }

  /**
   * Wrapping changes only the kind of each dict: read back as plain dicts,
   * the wrapped value has the same keys and the same atoms at every depth.
   */
  lemma {:induction false} WrappedKeepsContents(v: Value)
    ensures Plain(Wrapped(v)) == Plain(v)
  {
    if !v.Atom? {
      var w := Wrapped(v);
      forall k | k in v.entries
        ensures Plain(w.entries[k]) == Plain(v.entries[k])
      {
        WrappedKeepsContents(v.entries[k]);
      }
      assert Plain(w).entries == Plain(v).entries;
    }
  }

  /** Wrapping a wrapped value again changes nothing. */
  lemma {:induction false} WrapIdempotent(v: Value)
    requires Wrappable(v)
    ensures Wrappable(Wrapped(v)) && Wrapped(Wrapped(v)) == Wrapped(v)
  {
    if !v.Atom? {
      var w := Wrapped(v);
      forall k | k in w.entries
        ensures ValidKey(k) && Wrappable(w.entries[k]) && Wrapped(w.entries[k]) == w.entries[k]
      {
        WrapIdempotent(v.entries[k]);
      }
      assert Wrapped(w).entries == w.entries;
    }
  }

  /** What one loop of the constructor stores for an entry: the wrapped value, or the value as given. */
  function Converted(v: Value, wrap: bool): Value {
    if wrap then Wrapped(v) else v
  }

  predicate EntryAccepted(key: string, v: Value, wrap: bool) {
    ValidKey(key) && (wrap ==> Wrappable(v))
  }

  /** `dict(pairs)`: a repeated key keeps its last value. */
  function DictOfPairs(pairs: seq<(string, Value)>): (m: map<string, Value>)
    ensures forall k :: k in m <==> exists i :: 0 <= i < |pairs| && pairs[i].0 == k
  {
    if pairs == [] then map[]
    else
      var last := pairs[|pairs| - 1];
      DictOfPairs(pairs[..|pairs| - 1])[last.0 := last.1]
  }

  /** The value `dict(pairs)` keeps for a key is the one of its last pair. */
  lemma {:induction false} DictOfPairsLast(pairs: seq<(string, Value)>, i: nat)
    requires i < |pairs| && forall j :: i < j < |pairs| ==> pairs[j].0 != pairs[i].0
    ensures DictOfPairs(pairs)[pairs[i].0] == pairs[i].1
    decreases |pairs|
  {
    if i < |pairs| - 1 {
      var init := pairs[..|pairs| - 1];
      assert init[i] == pairs[i];
      DictOfPairsLast(init, i);
    }
  }

  /**
   * The entries one constructor loop writes through `__setitem__`, in the
   * order of the items, or the `SyntaxError` it meets.
   */
  function Applied(entries: seq<(string, Value)>, wrap: bool): (r: Result<map<string, Value>, Error>)
    ensures r.Err? ==> r.error == SyntaxError
    ensures r.Ok? ==> r.value.Keys == DictOfPairs(entries).Keys
  {
    if entries == [] then Ok(map[])
    else
      var init := entries[..|entries| - 1];
      var last := entries[|entries| - 1];
      match Applied(init, wrap)
      case Err(e) => Err(e)
      case Ok(written) =>
        if EntryAccepted(last.0, last.1, wrap) then Ok(written[last.0 := Converted(last.1, wrap)])
        else Err(SyntaxError)
  }

  /** Each key a loop writes holds its given value for that key, converted. */
  lemma {:induction false} AppliedValue(entries: seq<(string, Value)>, wrap: bool, k: string)
    requires Applied(entries, wrap).Ok? && k in Applied(entries, wrap).value
    ensures Applied(entries, wrap).value[k] == Converted(DictOfPairs(entries)[k], wrap)
    decreases |entries|
  {
    var init := entries[..|entries| - 1];
    var last := entries[|entries| - 1];
    if k != last.0 {
      AppliedValue(init, wrap, k);
    }
  }

  lemma EmptyMerge(m: map<string, Value>)
    ensures map[] + m == m
  {
  }

  /** Writing a key after a merge is writing it into the merged-in map. */
  lemma MergeThenWrite(m: map<string, Value>, w: map<string, Value>, k: string, v: Value)
    ensures (m + w)[k := v] == m + w[k := v]
  {
  }

  /** A loop fails exactly when one of its entries is refused. */
  lemma {:induction false} AppliedFailsOnRefusal(entries: seq<(string, Value)>, wrap: bool)
    ensures Applied(entries, wrap).Err? <==> exists i :: 0 <= i < |entries| && !EntryAccepted(entries[i].0, entries[i].1, wrap)
  {
    if entries != [] {
      var init := entries[..|entries| - 1];
      AppliedFailsOnRefusal(init, wrap);
      assert forall i :: 0 <= i < |init| ==> init[i] == entries[i];
    }
  }

  /** A wrapping loop leaves no plain dict among the values it stores. */
  lemma {:induction false} AppliedWrapsDicts(entries: seq<(string, Value)>)
    requires Applied(entries, true).Ok?
    ensures forall k :: k in Applied(entries, true).value ==> NoPlainDicts(Applied(entries, true).value[k])
  {
    if entries != [] {
      AppliedWrapsDicts(entries[..|entries| - 1]);
    }
  }

  lemma {:induction false} AppliedErrorPersists(entries: seq<(string, Value)>, n: nat, wrap: bool)
    requires n <= |entries| && Applied(entries[..n], wrap).Err?
    ensures Applied(entries, wrap) == Applied(entries[..n], wrap)
    decreases |entries| - n
  {
    if n == |entries| {
      assert entries[..n] == entries;
    } else {
      assert entries[..n + 1][..n] == entries[..n];
      AppliedErrorPersists(entries, n + 1, wrap);
    }
  }

  // ---------------------------------------------------------------------------
  // Construction

  /**
   * The positional argument, by its items: a dict, or the `.items()` form
   * (a sequence of pairs, which `dict` accepts but the loops do not wrap).
   */
  datatype PositionalArg = DictArg(items: seq<(string, Value)>) | PairsArg(items: seq<(string, Value)>)

  /** What `dict.__init__(*args, **kwargs)` stores, before any check. */
  function InitialItems(arg: Option<PositionalArg>, kwargs: seq<(string, Value)>): map<string, Value> {
    (if arg.Some? then DictOfPairs(arg.value.items) else map[]) + DictOfPairs(kwargs)
  }

  function DictItems(arg: Option<PositionalArg>): seq<(string, Value)> {
    if arg.Some? && arg.value.DictArg? then arg.value.items else []
  }

  /**
   * The (items, attributes) a `DottedDict(arg, **kwargs)` ends with: the dict
   * argument's entries and then the keyword entries are wrapped and set;
   * when that leaves the attribute view empty but not the items (the pairs
   * form), every item is set again as given. (Setting the pairs in order
   * stores and checks the same as setting the items of the dict they made.)
   */
  function Constructed(arg: Option<PositionalArg>, kwargs: seq<(string, Value)>): (r: Result<(map<string, Value>, map<string, Value>), Error>)
    ensures r.Err? ==> r.error == SyntaxError
    ensures r.Ok? ==> r.value.0.Keys == InitialItems(arg, kwargs).Keys
  {
    match Applied(DictItems(arg), true)
    case Err(e) => Err(e)
    case Ok(fromArg) =>
      match Applied(kwargs, true)
      case Err(e) => Err(e)
      case Ok(fromKeywords) =>
        var items := InitialItems(arg, kwargs) + fromArg + fromKeywords;
        var attrs := fromArg + fromKeywords;
        if items != map[] && attrs == map[] then
          match Applied(arg.value.items, false)
          case Err(e) => Err(e)
          case Ok(again) => Ok((items + again, attrs + again))
        else Ok((items, attrs))
  }

  /** Built from a dict and keywords, or from pairs alone, the two views agree. */
  lemma ConstructedSynced(arg: Option<PositionalArg>, kwargs: seq<(string, Value)>)
    requires arg.None? || arg.value.DictArg? || kwargs == []
    requires Constructed(arg, kwargs).Ok?
    ensures Constructed(arg, kwargs).value.0 == Constructed(arg, kwargs).value.1
  {
  }

  /**
   * Built from a dict and keywords, each item holds the value `dict` stored
   * for its key, wrapped: a keyword's value when the key is a keyword, else
   * the dict argument's.
   */
  lemma ConstructedValue(arg: Option<PositionalArg>, kwargs: seq<(string, Value)>, k: string)
    requires arg.None? || arg.value.DictArg?
    requires Constructed(arg, kwargs).Ok? && k in Constructed(arg, kwargs).value.0
    ensures Constructed(arg, kwargs).value.0[k] == Wrapped(InitialItems(arg, kwargs)[k])
  {
    var fromArg := Applied(DictItems(arg), true).value;
    var fromKeywords := Applied(kwargs, true).value;
    if k in fromKeywords {
      AppliedValue(kwargs, true, k);
    } else {
      AppliedValue(DictItems(arg), true, k);
    }
  }

  /** Built from pairs alone, each item holds the value `dict(pairs)` keeps for it, unwrapped. */
  lemma ConstructedFromPairs(pairs: seq<(string, Value)>, k: string)
    requires Constructed(Some(PairsArg(pairs)), []).Ok? && k in Constructed(Some(PairsArg(pairs)), []).value.0
    ensures Constructed(Some(PairsArg(pairs)), []).value.0[k] == DictOfPairs(pairs)[k]
  {
    assert Applied([], true) == Ok(map[]);
    AppliedValue(pairs, false, k);
  }

  /** A single keyword entry is wrapped and stored. */
  lemma AppliedSingle(v: string, b: Value)
    requires ValidKey(v) && Wrappable(b)
    ensures Applied([(v, b)], true) == Ok(map[v := Wrapped(b)])
  {
    assert [(v, b)][..0] == [];
  }

  lemma InitialPairAndKeyword(u: string, a: Value, v: string, b: Value)
    ensures InitialItems(Some(PairsArg([(u, a)])), [(v, b)]) == map[u := a] + map[v := b]
  {
    assert [(u, a)][..0] == [] && [(v, b)][..0] == [];
  }

  /**
   * Pairs together with keywords: the pairs are stored as items, unchecked
   * and unwrapped, but never become attributes.
   */
  lemma PairsWithKeywordsNotMirrored(u: string, a: Value, v: string, b: Value)
    requires u != v && ValidKey(v) && Wrappable(b)
    ensures Constructed(Some(PairsArg([(u, a)])), [(v, b)]) ==
      Ok((map[u := a, v := Wrapped(b)], map[v := Wrapped(b)]))
  {
    AppliedSingle(v, b);
    InitialPairAndKeyword(u, a, v, b);
    assert Applied(DictItems(Some(PairsArg([(u, a)]))), true) == Ok(map[]);
    var attrs: map<string, Value> := map[v := Wrapped(b)];
    EmptyMerge(attrs);
    assert v in attrs;
    KeywordOverridesPair(u, a, v, b, Wrapped(b));
  }

  lemma KeywordOverridesPair(u: string, a: Value, v: string, b: Value, w: Value)
    ensures map[u := a] + map[v := b] + map[] + map[v := w] == map[u := a, v := w]
  {
  }

  /** Built from a dict and keywords, every stored dict value is a `DottedDict`, at every depth. */
  lemma ConstructedWrapsDicts(arg: Option<PositionalArg>, kwargs: seq<(string, Value)>)
    requires arg.None? || arg.value.DictArg?
    requires Constructed(arg, kwargs).Ok?
    ensures forall k :: k in Constructed(arg, kwargs).value.0 ==> NoPlainDicts(Constructed(arg, kwargs).value.0[k])
  {
    AppliedWrapsDicts(DictItems(arg));
    AppliedWrapsDicts(kwargs);
  }

  // ---------------------------------------------------------------------------
  // The object

  class DottedDict {
    /** The dict storage. */
    var items: map<string, Value>
    /** The attribute view, `__dict__`. */
    var attrs: map<string, Value>

    constructor Empty()
      ensures items == map[] && attrs == map[]
    {
      items := map[];
      attrs := map[];
    }

    /** Every key is readable both as an item and as an attribute, with the same value. */
    predicate Synced()
      reads this
    {
      items == attrs
    }

    /** `d[key]`. */
    function GetItem(key: string): (r: Result<Value, Error>)
      reads this
      ensures r.Ok? <==> key in items
      ensures r.Ok? ==> r.value == items[key]
      ensures r.Err? ==> r.error == KeyError(key)
    {
      if key in items then Ok(items[key]) else Err(KeyError(key))
    }

    /** `d.attr`: a missing attribute is an `AttributeError`. */
    function GetAttr(attr: string): (r: Result<Value, Error>)
      reads this
      ensures r.Ok? <==> attr in attrs
      ensures r.Ok? ==> r.value == attrs[attr]
      ensures r.Err? ==> r.error == AttributeError(attr)
    {
      if attr in attrs then Ok(attrs[attr]) else Err(AttributeError(attr))
    }

    /** `d[key] = value`: a valid key is written to both views; otherwise `SyntaxError` and nothing changes. */
    method SetItem(key: string, value: Value) returns (r: Result<(), Error>)
      modifies this
      ensures CheckIdentifier(key).Ok? ==>
        r == Ok(()) && items == old(items)[key := value] && attrs == old(attrs)[key := value] &&
        GetItem(key) == Ok(value) && GetAttr(key) == Ok(value)
      ensures CheckIdentifier(key).Err? ==> r == Err(SyntaxError) && items == old(items) && attrs == old(attrs)
      ensures old(Synced()) ==> Synced()
    {
      var valid := CheckIdentifier(key);
      if valid.Err? {
        return Err(valid.error);
      }
      items := items[key := value];
      attrs := attrs[key := value];
      return Ok(());
    }

    /** `d.key = value`: the same as `d[key] = value`. */
    method SetAttr(key: string, value: Value) returns (r: Result<(), Error>)
      modifies this
      ensures CheckIdentifier(key).Ok? ==> r == Ok(()) && items == old(items)[key := value] && attrs == old(attrs)[key := value]
      ensures CheckIdentifier(key).Err? ==> r == Err(SyntaxError) && items == old(items) && attrs == old(attrs)
    {
      r := SetItem(key, value);
    }

    /**
     * `del d[key]`: a missing item is a `KeyError`; otherwise the item is
     * removed, then the attribute, whose absence is a `KeyError` too.
     */
    method DelItem(key: string) returns (r: Result<(), Error>)
      modifies this
      ensures key !in old(items) ==> r == Err(KeyError(key)) && items == old(items) && attrs == old(attrs)
      ensures key in old(items) ==>
        items == old(items) - {key} && attrs == old(attrs) - {key} &&
        (r.Ok? <==> key in old(attrs)) && (r.Err? ==> r.error == KeyError(key))
      ensures old(Synced()) ==> Synced()
      ensures key in old(items) && old(Synced()) ==> r.Ok? && GetItem(key).Err? && GetAttr(key) == Err(AttributeError(key))
    {
      if key !in items {
        return Err(KeyError(key));
      }
      items := items - {key};
      if key !in attrs {
        return Err(KeyError(key));
      }
      attrs := attrs - {key};
      return Ok(());
    }

    /** `del d.key`: the same as `del d[key]`. */
    method DelAttr(key: string) returns (r: Result<(), Error>)
      modifies this
      ensures key !in old(items) ==> r == Err(KeyError(key)) && items == old(items) && attrs == old(attrs)
      ensures key in old(items) ==>
        items == old(items) - {key} && attrs == old(attrs) - {key} &&
        (r.Ok? <==> key in old(attrs)) && (r.Err? ==> r.error == KeyError(key))
    {
      r := DelItem(key);
    }

    /** One constructor loop: set each entry in order, wrapped when `wrap` holds. */
    method SetEach(entries: seq<(string, Value)>, wrap: bool) returns (r: Result<(), Error>)
      modifies this
      ensures r.Ok? <==> Applied(entries, wrap).Ok?
      ensures r.Err? ==> r.error == SyntaxError
      ensures r.Ok? ==> items == old(items) + Applied(entries, wrap).value && attrs == old(attrs) + Applied(entries, wrap).value
    {
      ghost var written: map<string, Value> := map[];
      for i := 0 to |entries|
        invariant Applied(entries[..i], wrap) == Ok(written)
        invariant items == old(items) + written && attrs == old(attrs) + written
      {
        assert entries[..i + 1][..i] == entries[..i];
        var (key, value) := entries[i];
        if wrap {
          var wrapped := Wrap(value);
          if wrapped.Err? {
            AppliedErrorPersists(entries, i + 1, wrap);
            return Err(wrapped.error);
          }
          value := wrapped.value;
        }
        var stored := SetItem(key, value);
        if stored.Err? {
          AppliedErrorPersists(entries, i + 1, wrap);
          return stored;
        }
        MergeThenWrite(old(items), written, key, value);
        MergeThenWrite(old(attrs), written, key, value);
        written := written[key := value];
      }
      assert entries[..|entries|] == entries;
      return Ok(());
    }
  }

  /** `DottedDict(arg, **kwargs)`, or the `SyntaxError` construction raises. */
  method NewDottedDict(arg: Option<PositionalArg>, kwargs: seq<(string, Value)>) returns (r: Result<DottedDict, Error>)
    ensures var c := Constructed(arg, kwargs);
      (r.Ok? <==> c.Ok?) && (r.Err? ==> r.error == c.error) &&
      (r.Ok? ==> fresh(r.value) && r.value.items == c.value.0 && r.value.attrs == c.value.1)
  {
    var d := new DottedDict.Empty();
    d.items := InitialItems(arg, kwargs);
    var e := d.SetEach(DictItems(arg), true);
    if e.Err? {
      return Err(e.error);
    }
    ghost var fromArg := Applied(DictItems(arg), true).value;
    EmptyMerge(fromArg);
    e := d.SetEach(kwargs, true);
    if e.Err? {
      return Err(e.error);
    }
    ghost var fromKeywords := Applied(kwargs, true).value;
    assert d.items == InitialItems(arg, kwargs) + fromArg + fromKeywords;
    assert d.attrs == fromArg + fromKeywords;
    if d.items != map[] && d.attrs == map[] {
      e := d.SetEach(arg.value.items, false);
      if e.Err? {
        return Err(e.error);
      }
    }
    return Ok(d);
  }
}
