/**
 * Flattening of API-comparison diffs in the static API tests
 * (tests/unit/static/test_api.py): `_flatten`, `_flatten_api_diff`, and
 * the rule by which the trulens_eval compatibility test ignores or
 * reports each flattened difference.
 */
module ApiFlatten {
  import opened Wrappers

  /** The special keys jsondiff puts in a diff (`jsondiff.symbols`). */
  datatype Symbol = Missing | Identical | Delete | Insert | Update | Add | Discard | Replace | Left | Right

  /** A key of a dictionary: a string, an integer position, or a jsondiff symbol. */
  datatype Key = StrKey(s: string) | IntKey(i: int) | SymKey(sym: Symbol)

  /**
   * The values that occur in a loaded or diffed API description. Lists and
   * tuples are the `Sequence`s; `Opaque` is anything else (None, a set, ...).
   */
  datatype Value =
    | Str(s: string)
    | Int(i: int)
    | Float(f: real)
    | Bool(b: bool)
    | Dict(entries: seq<Entry>)
    | List(items: seq<Value>)
    | Opaque

  /** One `key: value` item of a dictionary, in iteration order. */
  datatype Entry = Entry(key: Key, val: Value)

  /** One step of a `Lens`: `lens[k]` for a key, `lens[i]` for a position. */
  datatype Step = KeyStep(key: Key) | IndexStep(index: nat)

  type Lens = seq<Step>

  /** `_flatten` raises `ValueError` on a value it cannot flatten. */
  datatype FlattenError = UnexpectedType

  /** A flattened leaf: where it is, and what is there. */
  datatype Leaf = Leaf(lens: Lens, val: Value)

  /** A flattened difference: the symbol of the diff entry, where, and what. */
  datatype Diff = Diff(sym: Symbol, lens: Lens, val: Value)

  predicate IsScalar(v: Value)
  {
    v.Str? || v.Int? || v.Float? || v.Bool?
  }

  /** `_flatten(val, lens)`: the (lens, value) pairs, or `ValueError`. */
  function Flatten(v: Value, lens: Lens): Result<seq<Leaf>, FlattenError>
    decreases v, 1
  {
    if |lens| > 1 || IsScalar(v) then Success([Leaf(lens, v)])
    else match v
      case Dict(_) => FlattenEntries(v, 0, lens)
      case List(_) => FlattenItems(v, 0, lens)
      case _ => Failure(UnexpectedType)
  }

  /** `for k, v in val.items(): yield from self._flatten(val=v, lens=lens[k])`, from the `i`-th entry on. */
  function FlattenEntries(d: Value, i: nat, lens: Lens): Result<seq<Leaf>, FlattenError>
    requires d.Dict? && i <= |d.entries|
    decreases d, 0, |d.entries| - i
  {
    if i == |d.entries| then Success([])
    else
      match Flatten(d.entries[i].val, lens + [KeyStep(d.entries[i].key)])
      case Failure(e) => Failure(e)
      case Success(first) =>
        match FlattenEntries(d, i + 1, lens)
        case Failure(e) => Failure(e)
        case Success(rest) => Success(first + rest)
  }

  /** `for i, v in enumerate(val): yield from self._flatten(val=v, lens=lens[i])`, from position `i` on. */
  function FlattenItems(d: Value, i: nat, lens: Lens): Result<seq<Leaf>, FlattenError>
    requires d.List? && i <= |d.items|
    decreases d, 0, |d.items| - i
  {
    if i == |d.items| then Success([])
    else
      match Flatten(d.items[i], lens + [IndexStep(i)])
      case Failure(e) => Failure(e)
      case Success(first) =>
        match FlattenItems(d, i + 1, lens)
        case Failure(e) => Failure(e)
        case Success(rest) => Success(first + rest)
  }

  /** Every lens `_flatten` yields extends the starting lens. */
  predicate AllExtend(leaves: seq<Leaf>, lens: Lens)
  {
    forall i :: 0 <= i < |leaves| ==> |lens| <= |leaves[i].lens| && leaves[i].lens[..|lens|] == lens
  }

  /** Every lens `_flatten` yields has at most `n` steps. */
  predicate AllAtMost(leaves: seq<Leaf>, n: nat)
  {
    forall i :: 0 <= i < |leaves| ==> |leaves[i].lens| <= n
  }

  lemma PrefixOfExtension(lens: Lens, step: Step, longer: Lens)
    requires |lens + [step]| <= |longer| && longer[..|lens + [step]|] == lens + [step]
    ensures |lens| <= |longer| && longer[..|lens|] == lens
  {
    assert longer[..|lens|] == (lens + [step])[..|lens|];
  }

  lemma ExtendConcat(first: seq<Leaf>, rest: seq<Leaf>, lens: Lens, step: Step)
    requires AllExtend(first, lens + [step]) && AllExtend(rest, lens)
    ensures AllExtend(first + rest, lens)
  {
    var all := first + rest;
    forall i | 0 <= i < |all| ensures |lens| <= |all[i].lens| && all[i].lens[..|lens|] == lens {
      if i < |first| {
        PrefixOfExtension(lens, step, all[i].lens);
      } else {
        assert all[i] == rest[i - |first|];
      }
    }
  }

  /** Every yielded lens has the starting lens as a prefix. */
  lemma {:induction false} FlattenExtendsLens(v: Value, lens: Lens)
    ensures Flatten(v, lens).Success? ==> AllExtend(Flatten(v, lens).value, lens)
    decreases v, 1
  {
    if !(|lens| > 1 || IsScalar(v)) {
      match v
      case Dict(_) => EntriesExtendLens(v, 0, lens);
      case List(_) => ItemsExtendLens(v, 0, lens);
      case _ =>
    }
  }

  lemma {:induction false} EntriesExtendLens(d: Value, i: nat, lens: Lens)
    requires d.Dict? && i <= |d.entries|
    ensures FlattenEntries(d, i, lens).Success? ==> AllExtend(FlattenEntries(d, i, lens).value, lens)
    decreases d, 0, |d.entries| - i
  {
    if i < |d.entries| {
      var step := KeyStep(d.entries[i].key);
      FlattenExtendsLens(d.entries[i].val, lens + [step]);
      EntriesExtendLens(d, i + 1, lens);
      var f := Flatten(d.entries[i].val, lens + [step]);
      if f.Success? && FlattenEntries(d, i + 1, lens).Success? {
        ExtendConcat(f.value, FlattenEntries(d, i + 1, lens).value, lens, step);
      }
    }
  }

  lemma {:induction false} ItemsExtendLens(d: Value, i: nat, lens: Lens)
    requires d.List? && i <= |d.items|
    ensures FlattenItems(d, i, lens).Success? ==> AllExtend(FlattenItems(d, i, lens).value, lens)
    decreases d, 0, |d.items| - i
  {
    if i < |d.items| {
      var step := IndexStep(i);
      FlattenExtendsLens(d.items[i], lens + [step]);
      ItemsExtendLens(d, i + 1, lens);
      var f := Flatten(d.items[i], lens + [step]);
      if f.Success? && FlattenItems(d, i + 1, lens).Success? {
        ExtendConcat(f.value, FlattenItems(d, i + 1, lens).value, lens, step);
      }
    }
  }

  /** From a lens of at most two steps, every yielded lens has at most two. */
  lemma {:induction false} FlattenDepthAtMostTwo(v: Value, lens: Lens)
    requires |lens| <= 2
    ensures Flatten(v, lens).Success? ==> AllAtMost(Flatten(v, lens).value, 2)
    decreases v, 1
  {
    if !(|lens| > 1 || IsScalar(v)) {
      match v
      case Dict(_) => EntriesDepthAtMostTwo(v, 0, lens);
      case List(_) => ItemsDepthAtMostTwo(v, 0, lens);
      case _ =>
    }
  }

  lemma {:induction false} EntriesDepthAtMostTwo(d: Value, i: nat, lens: Lens)
    requires d.Dict? && i <= |d.entries|
    requires |lens| <= 1
    ensures FlattenEntries(d, i, lens).Success? ==> AllAtMost(FlattenEntries(d, i, lens).value, 2)
    decreases d, 0, |d.entries| - i
  {
    if i < |d.entries| {
      FlattenDepthAtMostTwo(d.entries[i].val, lens + [KeyStep(d.entries[i].key)]);
      EntriesDepthAtMostTwo(d, i + 1, lens);
    }
  }

  lemma {:induction false} ItemsDepthAtMostTwo(d: Value, i: nat, lens: Lens)
    requires d.List? && i <= |d.items|
    requires |lens| <= 1
    ensures FlattenItems(d, i, lens).Success? ==> AllAtMost(FlattenItems(d, i, lens).value, 2)
    decreases d, 0, |d.items| - i
  {
    if i < |d.items| {
      FlattenDepthAtMostTwo(d.items[i], lens + [IndexStep(i)]);
      ItemsDepthAtMostTwo(d, i + 1, lens);
    }
  }

  /** Starting from the empty lens, every yielded lens has at most two steps. */
  lemma FlattenFromRootAtMostTwo(v: Value)
    ensures Flatten(v, []).Success? ==> AllAtMost(Flatten(v, []).value, 2)
  {
    FlattenDepthAtMostTwo(v, []);
  }

  /**
   * What `_flatten` does by the kind of value: one pair for a long lens or
   * a scalar; a dictionary entry by entry, lens extended by the key; any
   * other sequence item by item, lens extended by the position; anything
   * else is a `ValueError`.
   */
  lemma FlattenCases(v: Value, lens: Lens)
    ensures |lens| > 1 || IsScalar(v) ==> Flatten(v, lens) == Success([Leaf(lens, v)])
    ensures |lens| <= 1 && v.Dict? && |v.entries| > 0 ==>
      Flatten(v, lens) ==
        match Flatten(v.entries[0].val, lens + [KeyStep(v.entries[0].key)])
        case Failure(e) => Failure(e)
        case Success(first) =>
          match FlattenEntries(v, 1, lens)
          case Failure(e) => Failure(e)
          case Success(rest) => Success(first + rest)
    ensures |lens| <= 1 && v.List? && |v.items| > 0 ==>
      Flatten(v, lens) ==
        match Flatten(v.items[0], lens + [IndexStep(0)])
        case Failure(e) => Failure(e)
        case Success(first) =>
          match FlattenItems(v, 1, lens)
          case Failure(e) => Failure(e)
          case Success(rest) => Success(first + rest)
    ensures |lens| <= 1 && (v.Dict? || v.List?) && (v.Dict? ==> |v.entries| == 0) && (v.List? ==> |v.items| == 0) ==>
      Flatten(v, lens) == Success([])
    ensures |lens| <= 1 && v.Opaque? ==> Flatten(v, lens) == Failure(UnexpectedType)
  {
  }

  /** `_flatten_api_diff(diff_value, lens)` */
  function FlattenApiDiff(dv: Value, lens: Lens): Result<seq<Diff>, FlattenError>
    decreases dv, 1
  {
    match dv
    case Dict(_) => FlattenDiffEntries(dv, 0, lens)
    case _ => Success([])
  }

  /** `yield (k, sublens, subval)` for every flattened leaf. */
  function Tag(sym: Symbol, leaves: seq<Leaf>): (r: seq<Diff>)
    ensures |r| == |leaves|
    ensures forall i :: 0 <= i < |leaves| ==> r[i] == Diff(sym, leaves[i].lens, leaves[i].val)
  {
    if |leaves| == 0 then [] else [Diff(sym, leaves[0].lens, leaves[0].val)] + Tag(sym, leaves[1..])
  }

  /** The differences of one entry of a diff dictionary. */
  function FlattenDiffEntry(d: Value, i: nat, lens: Lens): Result<seq<Diff>, FlattenError>
    requires d.Dict? && i < |d.entries|
    decreases d, 0, |d.entries| - i, 1
  {
    var e := d.entries[i];
    match e.key
    case SymKey(sym) =>
      (match Flatten(e.val, lens)
       case Failure(err) => Failure(err)
       case Success(leaves) => Success(Tag(sym, leaves)))
    case _ => FlattenApiDiff(e.val, lens + [KeyStep(e.key)])
  }

  /** The `for k, v in diff_value.items()` loop of `_flatten_api_diff`, from the `i`-th entry on. */
  function FlattenDiffEntries(d: Value, i: nat, lens: Lens): Result<seq<Diff>, FlattenError>
    requires d.Dict? && i <= |d.entries|
    decreases d, 0, |d.entries| - i, 2
  {
    if i == |d.entries| then Success([])
    else
      match FlattenDiffEntry(d, i, lens)
      case Failure(e) => Failure(e)
      case Success(f) =>
        match FlattenDiffEntries(d, i + 1, lens)
        case Failure(e) => Failure(e)
        case Success(rest) => Success(f + rest)
  }

  /** A value that is not a dictionary has no differences. */
  lemma FlattenApiDiffNonDict(dv: Value, lens: Lens)
    requires !dv.Dict?
    ensures FlattenApiDiff(dv, lens) == Success([])
  {
  }

  /** A symbol key flattens its value at the current lens, each leaf tagged with the symbol. */
  lemma FlattenApiDiffSymbolEntry(sym: Symbol, v: Value, lens: Lens)
    ensures Flatten(v, lens).Success? ==>
      FlattenApiDiff(Dict([Entry(SymKey(sym), v)]), lens) == Success(Tag(sym, Flatten(v, lens).value))
    ensures Flatten(v, lens).Failure? ==> FlattenApiDiff(Dict([Entry(SymKey(sym), v)]), lens).Failure?
  {
    var d := Dict([Entry(SymKey(sym), v)]);
    assert d.entries[0] == Entry(SymKey(sym), v);
    assert FlattenDiffEntries(d, 1, lens) == Success([]);
    assert FlattenApiDiff(d, lens) == FlattenDiffEntries(d, 0, lens);
    match Flatten(v, lens)
    case Success(leaves) =>
      var t := Tag(sym, leaves);
      assert FlattenDiffEntry(d, 0, lens) == Success(t);
      assert t + [] == t;
    case Failure(err) =>
      assert FlattenDiffEntry(d, 0, lens) == Failure(err);
  }

  /** Any other key descends with the lens extended by that key. */
  lemma FlattenApiDiffOtherEntry(k: Key, v: Value, lens: Lens)
    requires !k.SymKey?
    ensures FlattenApiDiff(Dict([Entry(k, v)]), lens) == FlattenApiDiff(v, lens + [KeyStep(k)])
  {
    var d := Dict([Entry(k, v)]);
    assert d.entries[0] == Entry(k, v);
    assert FlattenDiffEntries(d, 1, lens) == Success([]);
    assert FlattenApiDiff(d, lens) == FlattenDiffEntries(d, 0, lens);
    assert FlattenDiffEntry(d, 0, lens) == FlattenApiDiff(v, lens + [KeyStep(k)]);
    match FlattenApiDiff(v, lens + [KeyStep(k)])
    case Success(f) => assert f + [] == f;
    case Failure(_) =>
  }

  predicate DiffsExtend(diffs: seq<Diff>, lens: Lens)
  {
    forall i :: 0 <= i < |diffs| ==> |lens| <= |diffs[i].lens| && diffs[i].lens[..|lens|] == lens
  }

  /** Every flattened difference lies at or below the starting lens. */
  lemma {:induction false} FlattenApiDiffExtendsLens(dv: Value, lens: Lens)
    ensures FlattenApiDiff(dv, lens).Success? ==> DiffsExtend(FlattenApiDiff(dv, lens).value, lens)
    decreases dv, 1
  {
    if dv.Dict? {
      DiffEntriesExtendLens(dv, 0, lens);
    }
  }

  lemma {:induction false} DiffEntryExtendsLens(d: Value, i: nat, lens: Lens)
    requires d.Dict? && i < |d.entries|
    ensures FlattenDiffEntry(d, i, lens).Success? ==> DiffsExtend(FlattenDiffEntry(d, i, lens).value, lens)
    decreases d, 0, |d.entries| - i, 1
  {
    var e := d.entries[i];
    if FlattenDiffEntry(d, i, lens).Success? {
      var f := FlattenDiffEntry(d, i, lens).value;
      match e.key
      case SymKey(sym) =>
        FlattenExtendsLens(e.val, lens);
      case _ =>
        var step := KeyStep(e.key);
        FlattenApiDiffExtendsLens(e.val, lens + [step]);
        forall j | 0 <= j < |f| ensures |lens| <= |f[j].lens| && f[j].lens[..|lens|] == lens {
          PrefixOfExtension(lens, step, f[j].lens);
        }
    }
  }

  lemma {:induction false} DiffEntriesExtendLens(d: Value, i: nat, lens: Lens)
    requires d.Dict? && i <= |d.entries|
    ensures FlattenDiffEntries(d, i, lens).Success? ==> DiffsExtend(FlattenDiffEntries(d, i, lens).value, lens)
    decreases d, 0, |d.entries| - i, 2
  {
    if i < |d.entries| {
      DiffEntryExtendsLens(d, i, lens);
      DiffEntriesExtendLens(d, i + 1, lens);
      if FlattenDiffEntries(d, i, lens).Success? {
        var f := FlattenDiffEntry(d, i, lens).value;
        var rest := FlattenDiffEntries(d, i + 1, lens).value;
        var all := f + rest;
        forall j | 0 <= j < |all| ensures |lens| <= |all[j].lens| && all[j].lens[..|lens|] == lens {
          if j >= |f| {
            assert all[j] == rest[j - |f|];
          }
        }
      }
    }
  }

  // ---------------------------------------------------------------------
  // The ignore rule of test_api_trulens_eval_compat

  /** `repr(diff_lens.path[-1]) == ".__bases__"` */
  predicate LastStepIsBases(lens: Lens)
    requires |lens| > 0
  {
    lens[|lens| - 1] == KeyStep(StrKey("__bases__"))
  }

  /** `isinstance(diff_value, dict) and len(diff_value) == 0` */
  predicate IsEmptyDict(v: Value)
  {
    v.Dict? && |v.entries| == 0
  }

  /** A difference the compatibility test ignores. */
  predicate Ignored(d: Diff)
  {
    d.sym == Insert || (|d.lens| > 0 && LastStepIsBases(d.lens)) || IsEmptyDict(d.val)
  }

  /**
   * How the loop over the flattened differences ends: the subtest failures
   * it recorded, and whether it stopped on an `IndexError` from `path[-1]`
   * of an empty lens (reached only by a non-insert difference).
   */
  datatype CompatOutcome = CompatOutcome(failures: seq<Diff>, raisedIndexError: bool)

  /** The `for diff_type, diff_lens, diff_value in flat_diffs` loop with its three `continue`s. */
  function CompatFailures(diffs: seq<Diff>): (r: CompatOutcome)
    ensures forall i :: 0 <= i < |r.failures| ==> r.failures[i] in diffs && !Ignored(r.failures[i])
    ensures !r.raisedIndexError ==> forall d :: d in diffs ==> (d in r.failures <==> !Ignored(d))
    ensures r.raisedIndexError <==> exists d :: d in diffs && d.sym != Insert && |d.lens| == 0
  {
    if |diffs| == 0 then CompatOutcome([], false)
    else
      var d := diffs[0];
      if d.sym == Insert then CompatFailures(diffs[1..])
      else if |d.lens| == 0 then CompatOutcome([], true)
      else if LastStepIsBases(d.lens) then CompatFailures(diffs[1..])
      else if IsEmptyDict(d.val) then CompatFailures(diffs[1..])
      else
        var rest := CompatFailures(diffs[1..]);
        CompatOutcome([d] + rest.failures, rest.raisedIndexError)
  }
  /** A difference on which `path[-1]` raises: not an insert, at the empty lens. */
  predicate StopsLoop(d: Diff)
  {
    d.sym != Insert && |d.lens| == 0
  }

  /** The index of the first difference that stops the loop, or `|diffs|` when none does. */
  function FirstStop(diffs: seq<Diff>): (k: nat)
    ensures k <= |diffs|
    ensures forall j :: 0 <= j < k ==> !StopsLoop(diffs[j])
    ensures k < |diffs| ==> StopsLoop(diffs[k])
    decreases |diffs|
  {
    if |diffs| == 0 then 0
    else if StopsLoop(diffs[0]) then 0
    else
      var k := FirstStop(diffs[1..]);
      assert forall j :: 1 <= j < 1 + k ==> diffs[j] == diffs[1..][j - 1];
      1 + k
  }

  /** Reference: the differences not ignored, in order and with their multiplicity. */
  function NotIgnored(diffs: seq<Diff>): (r: seq<Diff>)
    ensures forall d :: d in r <==> d in diffs && !Ignored(d)
    decreases |diffs|
  {
    if |diffs| == 0 then []
    else if Ignored(diffs[0]) then NotIgnored(diffs[1..])
    else [diffs[0]] + NotIgnored(diffs[1..])
  }

  /**
   * The recorded failures are exactly the differences before the first one
   * with an empty lens that are not ignored, in order; the loop raises iff
   * such a difference exists.
   */
  lemma {:induction false} CompatFailuresUpToFirstStop(diffs: seq<Diff>)
    ensures CompatFailures(diffs).failures == NotIgnored(diffs[..FirstStop(diffs)])
    ensures CompatFailures(diffs).raisedIndexError <==> FirstStop(diffs) < |diffs|
    decreases |diffs|
  {
    if |diffs| > 0 {
      if StopsLoop(diffs[0]) {
        assert diffs[..0] == [];
      } else {
        var k := FirstStop(diffs[1..]);
        CompatFailuresUpToFirstStop(diffs[1..]);
        CompatFailuresStep(diffs);
        NotIgnoredPrefixStep(diffs, k);
        CombineCompat(CompatFailures(diffs), CompatFailures(diffs[1..]), Ignored(diffs[0]), diffs[0],
                      NotIgnored(diffs[..1 + k]), NotIgnored(diffs[1..][..k]));
      }
    }
  }

  /** Past a difference that does not stop the loop, an ignored one adds nothing and any other one is recorded first. */
  lemma CompatFailuresStep(diffs: seq<Diff>)
    requires |diffs| > 0 && !StopsLoop(diffs[0])
    ensures FirstStop(diffs) == 1 + FirstStop(diffs[1..])
    ensures CompatFailures(diffs) ==
      var rest := CompatFailures(diffs[1..]);
      if Ignored(diffs[0]) then rest else CompatOutcome([diffs[0]] + rest.failures, rest.raisedIndexError)
  {
  }

  lemma NotIgnoredPrefixStep(diffs: seq<Diff>, k: nat)
    requires k < |diffs|
    ensures NotIgnored(diffs[..1 + k]) ==
      if Ignored(diffs[0]) then NotIgnored(diffs[1..][..k]) else [diffs[0]] + NotIgnored(diffs[1..][..k])
  {
    assert diffs[..1 + k][0] == diffs[0];
    assert diffs[..1 + k][1..] == diffs[1..][..k];
  }

  lemma CombineCompat(o: CompatOutcome, rest: CompatOutcome, ignored: bool, d: Diff, mine: seq<Diff>, theirs: seq<Diff>)
    requires rest.failures == theirs
    requires o == if ignored then rest else CompatOutcome([d] + rest.failures, rest.raisedIndexError)
    requires mine == if ignored then theirs else [d] + theirs
    ensures o.failures == mine && o.raisedIndexError == rest.raisedIndexError
  {
  }
}
