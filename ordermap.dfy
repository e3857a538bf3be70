/**
 * The colour -> visit-order map both test reconcilers build from the study summary log. The study
 * events are walked in order; each clicked item's navigation room is looked up, a counter goes up on
 * every change of room between consecutive events, and a room receives the counter's value the first
 * time it is entered. The map thus numbers the rooms in the order the subject first visited them,
 * counting revisits of earlier rooms as changes.
 */
module ContextOrder {
  import opened Common
  import opened Text
  import opened Tables
  import opened Regions
  import SummaryLog

  /** The navigation room a study item stands in, from its table location. */
  function StudyRoomOf(name: string): (c: string)
    requires IsLabel(name, false)
    ensures c in ContextLabels
  {
    var loc := GetLocationByName(name, false);
    NavRoomByLocation(loc.0 as real, loc.1 as real).1
  }

  /** How many tuples Python's zip of the four summary lists yields. */
  function ZipLength(s: SummaryLog.Summary): (n: nat)
    ensures n <= |s.times| && n <= |s.eventTypes| && n <= |s.objectTypes| && n <= |s.locations|
    ensures n == |s.times| || n == |s.eventTypes| || n == |s.objectTypes| || n == |s.locations|
  {
    Min(Min(|s.times|, |s.eventTypes|), Min(|s.objectTypes|, |s.locations|))
  }

  /** Every zipped study event names a navigation item (get_location_by_name fails on any other). */
  predicate StudyNamed(s: SummaryLog.Summary)
  {
    forall k :: 0 <= k < ZipLength(s) ==> IsLabel(s.objectTypes[k], false)
  }

  /** The rooms of the first `k` zipped study events, in order. */
  function ColorsUpTo(s: SummaryLog.Summary, k: nat): (cs: seq<string>)
    requires StudyNamed(s) && k <= ZipLength(s)
    ensures |cs| == k
  {
    if k == 0 then [] else ColorsUpTo(s, k - 1) + [StudyRoomOf(s.objectTypes[k - 1])]
  }

  /** The room of each zipped study event, in order. */
  function Colors(s: SummaryLog.Summary): seq<string>
    requires StudyNamed(s)
  {
    ColorsUpTo(s, ZipLength(s))
  }

  /** The number of positions where a colour differs from the one before it. */
  function Changes(cs: seq<string>): nat
  {
    if |cs| <= 1 then 0
    else Changes(cs[..|cs| - 1]) + (if cs[|cs| - 1] != cs[|cs| - 2] then 1 else 0)
  }

  /** The loop state: the previous colour (None before the first event), the counter and the map. */
  datatype OrderState = OrderState(previous: Option<string>, counter: nat, mapping: map<string, nat>)

  /** One event's colour. */
  function OrderStep(st: OrderState, color: string): OrderState
  {
    var first := if st.previous.None? then st.(previous := Some(color), mapping := st.mapping[color := st.counter])
                 else st;
    if first.previous.value != color then
      var counter := first.counter + 1;
      OrderState(Some(color), counter, if color in first.mapping then first.mapping else first.mapping[color := counter])
    else first.(previous := Some(color))
  }

  /** The loop over the colours. */
  function Orders(cs: seq<string>): OrderState
  {
    if cs == [] then OrderState(None, 0, map[])
    else OrderStep(Orders(cs[..|cs| - 1]), cs[|cs| - 1])
  }

  function OrderMap(cs: seq<string>): map<string, nat>
  {
    Orders(cs).mapping
  }

  /**
   * What the loop keeps: the previous colour is the last one, the counter is the number of changes, the
   * map's keys are the colours seen and each colour maps to the number of changes up to its first appearance.
   */
  ghost predicate OrdersInvariant(cs: seq<string>, st: OrderState)
  {
    (cs == [] <==> st.previous.None?) &&
    (cs != [] ==> st.previous == Some(cs[|cs| - 1])) &&
    st.counter == Changes(cs) &&
    (forall c :: c in st.mapping <==> c in cs) &&
    ValuesAtFirst(cs, st.mapping)
  }

  /** Each colour of the map occurs in `cs` and maps to the number of changes up to its first occurrence. */
  predicate ValuesAtFirst(cs: seq<string>, m: map<string, nat>)
  {
    forall c :: c in m ==> c in cs && m[c] == Changes(cs[..IndexOf(cs, c) + 1])
  }

  lemma {:induction false} OrdersKeep(cs: seq<string>)
    ensures OrdersInvariant(cs, Orders(cs))
  {
    if cs != [] {
      var prefix := cs[..|cs| - 1];
      OrdersKeep(prefix);
      assert cs == prefix + [cs[|cs| - 1]];
      OrderStepKeeps(prefix, cs[|cs| - 1], Orders(prefix));
    }
  }

  lemma OrderStepKeeps(prefix: seq<string>, x: string, st: OrderState)
    requires OrdersInvariant(prefix, st)
    ensures OrdersInvariant(prefix + [x], OrderStep(st, x))
  {
    var cs := prefix + [x];
    assert cs[..|cs| - 1] == prefix;
    OrderStepCounter(prefix, x, st);
    OrderStepKeys(prefix, x, st);
    OrderStepValues(prefix, x, st);
  }

  lemma OrderStepCounter(prefix: seq<string>, x: string, st: OrderState)
    requires OrdersInvariant(prefix, st)
    ensures var next := OrderStep(st, x);
      next.previous == Some(x) && next.counter == Changes(prefix + [x])
  {
    var cs := prefix + [x];
    assert cs[..|cs| - 1] == prefix;
  }

  lemma OrderStepKeys(prefix: seq<string>, x: string, st: OrderState)
    requires OrdersInvariant(prefix, st)
    ensures forall c :: c in OrderStep(st, x).mapping <==> c in prefix + [x]
    ensures forall c :: c in st.mapping ==> OrderStep(st, x).mapping[c] == st.mapping[c]
  {
  }

  lemma OrderStepValues(prefix: seq<string>, x: string, st: OrderState)
    requires OrdersInvariant(prefix, st)
    ensures ValuesAtFirst(prefix + [x], OrderStep(st, x).mapping)
  {
    var cs, m := prefix + [x], OrderStep(st, x).mapping;
    forall c | c in m
      ensures c in cs && m[c] == Changes(cs[..IndexOf(cs, c) + 1])
    {
      OrderStepValueAt(prefix, x, st, c);
    }
  }

  lemma OrderStepValueAt(prefix: seq<string>, x: string, st: OrderState, c: string)
    requires OrdersInvariant(prefix, st) && c in OrderStep(st, x).mapping
    ensures c in prefix + [x] && OrderStep(st, x).mapping[c] == Changes((prefix + [x])[..IndexOf(prefix + [x], c) + 1])
  {
    OrderStepKeys(prefix, x, st);
    if c in prefix {
      OldValueAt(prefix, x, st, c);
    } else {
      NewValueAt(prefix, x, st);
    }
  }

  lemma OldValueAt(prefix: seq<string>, x: string, st: OrderState, c: string)
    requires OrdersInvariant(prefix, st) && c in prefix
    ensures c in OrderStep(st, x).mapping
    ensures OrderStep(st, x).mapping[c] == Changes((prefix + [x])[..IndexOf(prefix + [x], c) + 1])
  {
    var cs := prefix + [x];
    OrderStepKeys(prefix, x, st);
    IndexOfExtend(prefix, x, c);
    assert cs[..IndexOf(cs, c) + 1] == prefix[..IndexOf(prefix, c) + 1];
  }

  lemma NewValueAt(prefix: seq<string>, x: string, st: OrderState)
    requires OrdersInvariant(prefix, st) && x !in prefix
    ensures x in OrderStep(st, x).mapping
    ensures OrderStep(st, x).mapping[x] == Changes((prefix + [x])[..IndexOf(prefix + [x], x) + 1])
  {
    var cs := prefix + [x];
    OrderStepCounter(prefix, x, st);
    IndexOfUnique(cs, x, |prefix|);
    assert cs[..IndexOf(cs, x) + 1] == cs;
  }

  /** The first position of `x` is the one the defining properties single out. */
  lemma IndexOfUnique(xs: seq<string>, x: string, i: nat)
    requires i < |xs| && xs[i] == x && forall j :: 0 <= j < i ==> xs[j] != x
    ensures IndexOf(xs, x) == i
  {
  }

  lemma IndexOfExtend(xs: seq<string>, x: string, c: string)
    requires c in xs
    ensures IndexOf(xs + [x], c) == IndexOf(xs, c)
  {
    var i := IndexOf(xs, c);
    assert (xs + [x])[i] == c;
    IndexOfUnique(xs + [x], c, i);
  }

  /**
   * The finished map: its keys are exactly the colours of the study events, and every colour maps to the number of room changes before (and at) its first appearance.
   */
  lemma OrderMapCharacterised(cs: seq<string>)
    ensures OrderMap(cs).Keys == set c | c in cs
    ensures forall c :: c in OrderMap(cs) ==> OrderMap(cs)[c] == Changes(cs[..IndexOf(cs, c) + 1])
  {
    OrdersKeep(cs);
  }

  /** The room of the first study event is numbered 0. */
  lemma FirstColorIsZero(cs: seq<string>)
    requires cs != []
    ensures cs[0] in OrderMap(cs) && OrderMap(cs)[cs[0]] == 0
  {
    MapValueAt(cs, cs[0]);
    IndexOfUnique(cs, cs[0], 0);
    assert Changes(cs[..1]) == 0;
  }

  /** A colour's value is fixed when it is first seen: later events never reassign it. */
  lemma OrderMapNeverReassigned(cs: seq<string>, k: nat)
    requires k <= |cs|
    ensures forall c :: c in OrderMap(cs[..k]) ==> c in OrderMap(cs) && OrderMap(cs)[c] == OrderMap(cs[..k])[c]
  {
    forall c | c in OrderMap(cs[..k])
      ensures c in OrderMap(cs) && OrderMap(cs)[c] == OrderMap(cs[..k])[c]
    {
      KeptAt(cs, k, c);
    }
  }

  lemma KeptAt(cs: seq<string>, k: nat, c: string)
    requires k <= |cs| && c in OrderMap(cs[..k])
    ensures c in OrderMap(cs) && OrderMap(cs)[c] == OrderMap(cs[..k])[c]
  {
    MapValueAt(cs[..k], c);
    IndexOfPrefix(cs, k, c);
    MapValueAt(cs, c);
  }

  /** A colour is a key of the map exactly when it occurs, and its value is the changes up to its first occurrence. */
  lemma MapValueAt(cs: seq<string>, c: string)
    ensures c in OrderMap(cs) <==> c in cs
    ensures c in cs ==> OrderMap(cs)[c] == Changes(cs[..IndexOf(cs, c) + 1])
  {
    OrdersKeep(cs);
    if c in cs {
      assert c in Orders(cs).mapping;
    }
  }

  /** The first occurrence of a colour in a prefix is its first occurrence in the whole sequence. */
  lemma IndexOfPrefix(cs: seq<string>, k: nat, c: string)
    requires k <= |cs| && c in cs[..k]
    ensures c in cs && IndexOf(cs, c) == IndexOf(cs[..k], c)
    ensures cs[..k][..IndexOf(cs, c) + 1] == cs[..IndexOf(cs, c) + 1]
  {
    var i := IndexOf(cs[..k], c);
    assert cs[i] == c;
    IndexOfUnique(cs, c, i);
  }

  /** The values grow with the order of first appearance and never exceed the number of changes. */
  lemma {:induction false} ChangesPrefixMonotone(cs: seq<string>, i: nat, j: nat)
    requires i <= j <= |cs|
    ensures Changes(cs[..i]) <= Changes(cs[..j]) <= Changes(cs)
  {
    if j < |cs| {
      ChangesPrefixMonotone(cs[..|cs| - 1], i, j);
      assert cs[..|cs| - 1][..i] == cs[..i];
      assert cs[..|cs| - 1][..j] == cs[..j];
      assert cs[..|cs|] == cs;
    } else if i < j {
      assert cs[..j] == cs;
      ChangesPrefixMonotone(cs[..|cs| - 1], i, j - 1);
      assert cs[..|cs| - 1][..i] == cs[..i];
      assert cs[..|cs| - 1][..j - 1] == cs[..|cs| - 1];
    } else {
      assert cs[..j] == cs;
    }
  }

  /** The map building loop of the reconcilers, with the source's local variables. */
  method ContextColorOrderMapping(s: SummaryLog.Summary) returns (mapping: map<string, nat>)
    requires StudyNamed(s)
    ensures mapping == OrderMap(Colors(s))
  {
    var previous: Option<string> := None;
    mapping := map[];
    var counter := 0;
    var n := ZipLength(s);
    for k := 0 to n
      invariant Orders(ColorsUpTo(s, k)) == OrderState(previous, counter, mapping)
    {
      var current := StudyRoomOf(s.objectTypes[k]);
      assert ColorsUpTo(s, k + 1)[..k] == ColorsUpTo(s, k);
      previous, counter, mapping := NextOrder(previous, counter, mapping, current);
    }
  }

  /** The loop body for one study event whose room is `current`. */
  method NextOrder(previous: Option<string>, counter: nat, mapping: map<string, nat>, current: string)
    returns (previous': Option<string>, counter': nat, mapping': map<string, nat>)
    ensures OrderState(previous', counter', mapping') == OrderStep(OrderState(previous, counter, mapping), current)
  {
    previous', counter', mapping' := previous, counter, mapping;
    if previous'.None? {
      previous' := Some(current);
      mapping' := mapping'[current := counter'];
    }
    if previous'.value != current {
      counter' := counter' + 1;
      if current !in mapping' {
        mapping' := mapping'[current := counter'];
      }
    }
    previous' := Some(current);
  }
}
