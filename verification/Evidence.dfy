/**
 `_bounded`: evidence cut down to a JSON-safe value of bounded size. What Python's str() prints is
 a parameter; all that is assumed of it is that a string prints as itself.
 */
module Evidence {
  import opened Finite
  import opened Text

  /** A Python value. Sequence stands for a list, a tuple, or a set in its iteration order. */
  datatype Value =
    | Null
    | Flag(b: bool)
    | Whole(n: int)
    | Float(x: real)
    | Str(s: string)
    | Dict(entries: seq<Entry>)
    | Sequence(items: seq<Value>)
    | Object(repr: nat)

  datatype Entry = Entry(key: Value, value: Value)

  type Printer = Value -> string

  ghost predicate PrintsStrings(show: Printer) {
    forall s :: show(Str(s)) == s
  }

  const MAX_DEPTH := 4
  const MAX_EVIDENCE_ITEMS := 64
  const MAX_KEY := 100
  const MAX_TEXT := 2_000
  const MAX_DEEP_TEXT := 500

  // ----- sorted(value.items(), key=lambda item: str(item[0])) -----

  function InsertEntry(show: Printer, e: Entry, es: seq<Entry>): seq<Entry> {
    if es == [] || AtMost(show(e.key), show(es[0].key)) then [e] + es
    else [es[0]] + InsertEntry(show, e, es[1..])
  }

  /** A stable sort. */
  function SortEntries(show: Printer, es: seq<Entry>): seq<Entry> {
    if es == [] then [] else InsertEntry(show, es[0], SortEntries(show, es[1..]))
  }

  // ----- the dict comprehension -----

  function Put(es: seq<Entry>, key: Value, value: Value): seq<Entry> {
    if es == [] then [Entry(key, value)]
    else if es[0].key == key then [Entry(key, value)] + es[1..]
    else [es[0]] + Put(es[1..], key, value)
  }

  /** A later equal key replaces the value but not the place. */
  function Collapse(es: seq<Entry>): seq<Entry> {
    if es == [] then [] else Put(Collapse(es[..|es| - 1]), es[|es| - 1].key, es[|es| - 1].value)
  }

  function Bounded(show: Printer, v: Value, depth: nat): Value
    decreases MAX_DEPTH - depth
  {
    if depth >= MAX_DEPTH then Str(Take(show(v), MAX_DEEP_TEXT))
    else match v
      case Null => v
      case Flag(_) => v
      case Whole(_) => v
      case Float(_) => v
      case Str(s) => Str(Take(s, MAX_TEXT))
      case Dict(entries) =>
        var es := First(SortEntries(show, entries), MAX_EVIDENCE_ITEMS);
        Dict(Collapse(seq(|es|, i requires 0 <= i < |es| =>
          Entry(Str(Take(show(es[i].key), MAX_KEY)), Bounded(show, es[i].value, depth + 1)))))
      case Sequence(items) =>
        var xs := First(items, MAX_EVIDENCE_ITEMS);
        Sequence(seq(|xs|, i requires 0 <= i < |xs| => Bounded(show, xs[i], depth + 1)))
      case Object(_) => Str(Take(show(v), MAX_TEXT))
  }

  // ----- the values it leaves alone -----

  ghost predicate KeysAscend(es: seq<Entry>) {
    && (forall i :: 0 <= i < |es| ==> es[i].key.Str? && |es[i].key.s| <= MAX_KEY)
    && forall i, j :: 0 <= i < j < |es| ==> Less(es[i].key.s, es[j].key.s)
  }

  ghost predicate Normal(v: Value, depth: nat)
    decreases MAX_DEPTH - depth
  {
    if depth >= MAX_DEPTH then v.Str? && |v.s| <= MAX_DEEP_TEXT
    else match v
      case Null => true
      case Flag(_) => true
      case Whole(_) => true
      case Float(_) => true
      case Str(s) => |s| <= MAX_TEXT
      case Dict(es) => |es| <= MAX_EVIDENCE_ITEMS && KeysAscend(es)
        && forall i :: 0 <= i < |es| ==> Normal(es[i].value, depth + 1)
      case Sequence(xs) => |xs| <= MAX_EVIDENCE_ITEMS && forall i :: 0 <= i < |xs| ==> Normal(xs[i], depth + 1)
      case Object(_) => false
  }

  // ----- sorting and collapsing keep keys in order -----

  ghost predicate InOrder(show: Printer, es: seq<Entry>) {
    forall i, j :: 0 <= i < j < |es| ==> AtMost(show(es[i].key), show(es[j].key))
  }

  lemma AtMostTransitive(a: string, b: string, c: string)
    requires AtMost(a, b) && AtMost(b, c)
    ensures AtMost(a, c)
  {
    if Less(a, b) && Less(b, c) {
      Transitive(a, b, c);
    }
  }

  lemma {:induction false} InsertEntryOrders(show: Printer, e: Entry, es: seq<Entry>)
    requires InOrder(show, es)
    ensures InOrder(show, InsertEntry(show, e, es))
    ensures forall x :: x in InsertEntry(show, e, es) <==> x == e || x in es
  {
    if es != [] {
      if AtMost(show(e.key), show(es[0].key)) {
        forall j | 0 <= j < |es| ensures AtMost(show(e.key), show(es[j].key)) {
          if j > 0 {
            AtMostTransitive(show(e.key), show(es[0].key), show(es[j].key));
          }
        }
      } else {
        var rest := InsertEntry(show, e, es[1..]);
        InsertEntryOrders(show, e, es[1..]);
        Trichotomy(show(e.key), show(es[0].key));
        assert es == [es[0]] + es[1..];
        forall j | 0 <= j < |rest| ensures AtMost(show(es[0].key), show(rest[j].key)) {
          assert rest[j] == e || rest[j] in es[1..];
        }
      }
    }
  }

  lemma {:induction false} SortEntriesOrders(show: Printer, es: seq<Entry>)
    ensures InOrder(show, SortEntries(show, es))
  {
    if es != [] {
      SortEntriesOrders(show, es[1..]);
      InsertEntryOrders(show, es[0], SortEntries(show, es[1..]));
    }
  }

  lemma {:induction false} SortedStays(show: Printer, es: seq<Entry>)
    requires InOrder(show, es)
    ensures SortEntries(show, es) == es
  {
    if es != [] {
      SortedStays(show, es[1..]);
      assert es == [es[0]] + es[1..];
    }
  }

  lemma {:induction false} PutNew(es: seq<Entry>, key: Value, value: Value)
    requires forall i :: 0 <= i < |es| ==> es[i].key != key
    ensures Put(es, key, value) == es + [Entry(key, value)]
  {
    if es != [] {
      PutNew(es[1..], key, value);
      assert es == [es[0]] + es[1..];
    }
  }

  lemma {:induction false} PutSame(es: seq<Entry>, key: Value, value: Value)
    requires es != [] && es[|es| - 1].key == key && forall i :: 0 <= i < |es| - 1 ==> es[i].key != key
    ensures Put(es, key, value) == es[..|es| - 1] + [Entry(key, value)]
  {
    if |es| == 1 {
      assert es[1..] == [] && es[..0] == [];
    } else {
      PutSame(es[1..], key, value);
      assert es[..|es| - 1] == [es[0]] + es[1..][..|es| - 2];
    }
  }

  /** Keys that ascend, and stay weakly below the next one, still ascend once it is put in. */
  lemma PutLast(es: seq<Entry>, key: string, value: Value)
    requires KeysAscend(es) && |key| <= MAX_KEY
    requires forall i :: 0 <= i < |es| ==> AtMost(es[i].key.s, key)
    ensures var r := Put(es, Str(key), value);
      KeysAscend(r) && |r| <= |es| + 1 && forall e :: e in r ==> e in es || e == Entry(Str(key), value)
  {
    var n := |es| - 1;
    if es != [] && es[n].key.s == key {
      forall i | 0 <= i < n ensures es[i].key != Str(key) {
        Trichotomy(es[i].key.s, es[n].key.s);
      }
      PutSame(es, Str(key), value);
    } else {
      forall i | 0 <= i < |es| ensures Less(es[i].key.s, key) && es[i].key != Str(key) {
        Trichotomy(es[i].key.s, es[n].key.s);
        if i < n {
          Transitive(es[i].key.s, es[n].key.s, key);
        }
        Trichotomy(es[i].key.s, key);
      }
      PutNew(es, Str(key), value);
    }
  }

  lemma {:induction false} CollapseOrders(es: seq<Entry>)
    requires forall i :: 0 <= i < |es| ==> es[i].key.Str? && |es[i].key.s| <= MAX_KEY
    requires forall i, j :: 0 <= i < j < |es| ==> AtMost(es[i].key.s, es[j].key.s)
    ensures KeysAscend(Collapse(es)) && |Collapse(es)| <= |es|
    ensures forall e :: e in Collapse(es) ==> e in es
  {
    if es != [] {
      var n := |es| - 1;
      var c := Collapse(es[..n]);
      CollapseOrders(es[..n]);
      forall i | 0 <= i < |c| ensures AtMost(c[i].key.s, es[n].key.s) {
        assert c[i] in es[..n];
      }
      PutLast(c, es[n].key.s, es[n].value);
      assert es[n] == Entry(Str(es[n].key.s), es[n].value);
    }
  }

  lemma {:induction false} AscendingStays(es: seq<Entry>)
    requires KeysAscend(es)
    ensures Collapse(es) == es
  {
    if es != [] {
      var n := |es| - 1;
      AscendingStays(es[..n]);
      forall i | 0 <= i < n ensures es[i].key.s != es[n].key.s {
        Trichotomy(es[i].key.s, es[n].key.s);
      }
      PutNew(es[..n], es[n].key, es[n].value);
      assert es[..n] + [es[n]] == es;
    }
  }

  // ----- bounded values are exactly the normal ones -----

  function Trimmed(show: Printer, es: seq<Entry>, depth: nat): seq<Entry>
    requires depth < MAX_DEPTH
  {
    seq(|es|, i requires 0 <= i < |es| =>
      Entry(Str(Take(show(es[i].key), MAX_KEY)), Bounded(show, es[i].value, depth + 1)))
  }

  lemma TrimmedOrders(show: Printer, entries: seq<Entry>, depth: nat)
    requires depth < MAX_DEPTH
    ensures var es := Trimmed(show, First(SortEntries(show, entries), MAX_EVIDENCE_ITEMS), depth);
      |es| <= MAX_EVIDENCE_ITEMS && KeysAscend(Collapse(es)) && |Collapse(es)| <= |es| && forall e :: e in Collapse(es) ==> e in es
  {
    var sorted := First(SortEntries(show, entries), MAX_EVIDENCE_ITEMS);
    var es := Trimmed(show, sorted, depth);
    SortEntriesOrders(show, entries);
    forall i | 0 <= i < |es| ensures es[i].key.Str? && |es[i].key.s| <= MAX_KEY {
      assert es[i].key == Str(Take(show(sorted[i].key), MAX_KEY));
    }
    forall i, j | 0 <= i < j < |es| ensures AtMost(es[i].key.s, es[j].key.s) {
      TakeMonotone(show(sorted[i].key), show(sorted[j].key), MAX_KEY);
    }
    CollapseOrders(es);
  }

  lemma {:induction false} BoundedIsNormal(show: Printer, v: Value, depth: nat)
    ensures Normal(Bounded(show, v, depth), depth)
    decreases MAX_DEPTH - depth, 1
  {
    if depth < MAX_DEPTH {
      if v.Dict? {
        BoundedDictIsNormal(show, v.entries, depth);
      } else if v.Sequence? {
        var xs := First(v.items, MAX_EVIDENCE_ITEMS);
        forall i | 0 <= i < |xs| ensures Normal(Bounded(show, xs[i], depth + 1), depth + 1) {
          BoundedIsNormal(show, xs[i], depth + 1);
        }
      }
    }
  }

  lemma {:induction false} BoundedDictIsNormal(show: Printer, entries: seq<Entry>, depth: nat)
    requires depth < MAX_DEPTH
    ensures Normal(Bounded(show, Dict(entries), depth), depth)
    decreases MAX_DEPTH - depth, 0
  {
    var sorted := First(SortEntries(show, entries), MAX_EVIDENCE_ITEMS);
    var es := Trimmed(show, sorted, depth);
    var result := Collapse(es);
    TrimmedOrders(show, entries, depth);
    assert Bounded(show, Dict(entries), depth) == Dict(result);
    forall i | 0 <= i < |result| ensures Normal(result[i].value, depth + 1) {
      assert result[i] in es;
      var k :| 0 <= k < |es| && es[k] == result[i];
      BoundedIsNormal(show, sorted[k].value, depth + 1);
    }
  }

  lemma {:induction false} NormalStays(show: Printer, v: Value, depth: nat)
    requires PrintsStrings(show) && Normal(v, depth)
    ensures Bounded(show, v, depth) == v
    decreases MAX_DEPTH - depth, 1
  {
    if depth < MAX_DEPTH {
      if v.Dict? {
        NormalDictStays(show, v.entries, depth);
      } else if v.Sequence? {
        NormalSequenceStays(show, v.items, depth);
      }
    }
  }

  lemma {:induction false} NormalDictStays(show: Printer, entries: seq<Entry>, depth: nat)
    requires PrintsStrings(show) && depth < MAX_DEPTH && Normal(Dict(entries), depth)
    ensures Bounded(show, Dict(entries), depth) == Dict(entries)
    decreases MAX_DEPTH - depth, 0
  {
    forall i | 0 <= i < |entries| ensures Bounded(show, entries[i].value, depth + 1) == entries[i].value {
      NormalStays(show, entries[i].value, depth + 1);
    }
    TrimmedStays(show, entries, depth);
    SortedStays(show, entries);
    AscendingStays(entries);
  }

  lemma TrimmedStays(show: Printer, entries: seq<Entry>, depth: nat)
    requires PrintsStrings(show) && depth < MAX_DEPTH && KeysAscend(entries)
    requires forall i :: 0 <= i < |entries| ==> Bounded(show, entries[i].value, depth + 1) == entries[i].value
    ensures Trimmed(show, entries, depth) == entries
  {
    forall i | 0 <= i < |entries| ensures Trimmed(show, entries, depth)[i] == entries[i] {
      assert entries[i].key == Str(entries[i].key.s);
    }
  }

  lemma {:induction false} NormalSequenceStays(show: Printer, items: seq<Value>, depth: nat)
    requires PrintsStrings(show) && depth < MAX_DEPTH && Normal(Sequence(items), depth)
    ensures Bounded(show, Sequence(items), depth) == Sequence(items)
    decreases MAX_DEPTH - depth, 0
  {
    forall i | 0 <= i < |items| ensures Bounded(show, items[i], depth + 1) == items[i] {
      NormalStays(show, items[i], depth + 1);
    }
    assert Bounded(show, Sequence(items), depth).items == items;
  }

  /** Bounding changes a value exactly if it is not normal ... */
  lemma FixedIffNormal(show: Printer, v: Value, depth: nat)
    requires PrintsStrings(show)
    ensures Bounded(show, v, depth) == v <==> Normal(v, depth)
  {
    BoundedIsNormal(show, v, depth);
    if Normal(v, depth) {
      NormalStays(show, v, depth);
    }
  }

  /** ... so bounding twice is bounding once, at every depth. */
  lemma BoundedIdempotent(show: Printer, v: Value, depth: nat)
    requires PrintsStrings(show)
    ensures Bounded(show, Bounded(show, v, depth), depth) == Bounded(show, v, depth)
  {
    BoundedIsNormal(show, v, depth);
    NormalStays(show, Bounded(show, v, depth), depth);
  }

  // ----- size -----

  function Width(v: Value): nat {
    match v
    case Dict(es) => |es|
    case Sequence(xs) => |xs|
    case _ => 0
  }

  function Child(v: Value, i: nat): Value
    requires i < Width(v)
  {
    if v.Dict? then v.entries[i].value else v.items[i]
  }

  /** Containers within containers at most n deep. */
  ghost predicate NestsAtMost(v: Value, n: nat) {
    v.Dict? || v.Sequence? ==> n > 0 && forall i :: 0 <= i < Width(v) ==> NestsAtMost(Child(v, i), n - 1)
  }

  /** The number of values inside v that are neither dict nor list. */
  ghost function Leaves(v: Value): nat
    decreases v, Width(v) + 1
  {
    if v.Dict? || v.Sequence? then LeavesBefore(v, Width(v)) else 1
  }

  ghost function LeavesBefore(v: Value, k: nat): nat
    requires k <= Width(v)
    decreases v, k
  {
    if k == 0 then 0 else LeavesBefore(v, k - 1) + Leaves(Child(v, k - 1))
  }

  function Pow64(n: nat): nat {
    if n == 0 then 1 else 64 * Pow64(n - 1)
  }

  lemma {:induction false} NormalNests(v: Value, depth: nat)
    requires Normal(v, depth) && depth <= MAX_DEPTH
    ensures NestsAtMost(v, MAX_DEPTH - depth)
    decreases MAX_DEPTH - depth
  {
    if depth < MAX_DEPTH {
      forall i | 0 <= i < Width(v) ensures NestsAtMost(Child(v, i), MAX_DEPTH - depth - 1) {
        NormalNests(Child(v, i), depth + 1);
      }
    }
  }

  lemma {:induction false} NormalLeaves(v: Value, depth: nat)
    requires Normal(v, depth) && depth <= MAX_DEPTH
    ensures Leaves(v) <= Pow64(MAX_DEPTH - depth)
    decreases MAX_DEPTH - depth, Width(v) + 1
  {
    if v.Dict? || v.Sequence? {
      NormalLeavesBefore(v, depth, Width(v));
      Scale(Width(v), 64, Pow64(MAX_DEPTH - depth - 1));
    } else {
      Pow64Positive(MAX_DEPTH - depth);
    }
  }

  lemma {:induction false} NormalLeavesBefore(v: Value, depth: nat, k: nat)
    requires Normal(v, depth) && depth < MAX_DEPTH && k <= Width(v)
    ensures LeavesBefore(v, k) <= k * Pow64(MAX_DEPTH - depth - 1)
    decreases MAX_DEPTH - depth, k
  {
    if k > 0 {
      NormalLeavesBefore(v, depth, k - 1);
      NormalLeaves(Child(v, k - 1), depth + 1);
      assert k * Pow64(MAX_DEPTH - depth - 1) == (k - 1) * Pow64(MAX_DEPTH - depth - 1) + Pow64(MAX_DEPTH - depth - 1);
    }
  }

  lemma Scale(a: nat, b: nat, c: nat)
    requires a <= b
    ensures a * c <= b * c
  {
  }

  lemma {:induction false} Pow64Positive(n: nat)
    ensures Pow64(n) >= 1
  {
    if n > 0 {
      Pow64Positive(n - 1);
    }
  }

  /** Whatever comes in, what comes out nests at most 4 deep and has at most 64^4 leaves. */
  lemma BoundedSize(show: Printer, v: Value)
    ensures NestsAtMost(Bounded(show, v, 0), 4)
    ensures Leaves(Bounded(show, v, 0)) <= 64 * 64 * 64 * 64
  {
    BoundedIsNormal(show, v, 0);
    NormalNests(Bounded(show, v, 0), 0);
    NormalLeaves(Bounded(show, v, 0), 0);
    assert Pow64(4) == 64 * Pow64(3) == 64 * 64 * Pow64(2) == 64 * 64 * 64 * Pow64(1);
  }
}
