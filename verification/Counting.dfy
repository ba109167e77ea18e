/** Counting arguments shared by the OTP and the per-address limits: items that
    belong to groups, groups that are born a minimum distance apart. */
module Counting {
  import opened Domain

  datatype Item = Item(group: int, at: Time)

  /** How many items fall in the half-open interval [lo, hi). */
  function InWindow(items: seq<Item>, lo: Time, hi: Time): nat {
    if items == [] then 0
    else InWindow(items[..|items| - 1], lo, hi) +
         if lo <= items[|items| - 1].at < hi then 1 else 0
  }

  function OfGroups(items: seq<Item>, groups: set<int>): nat {
    if items == [] then 0
    else OfGroups(items[..|items| - 1], groups) +
         if items[|items| - 1].group in groups then 1 else 0
  }

  function CeilDiv(x: int, y: int): int
    requires y > 0
  {
    (x + y - 1) / y
  }

  ghost predicate Spaced(born: map<int, Time>, gap: int) {
    forall g, h :: g in born && h in born && g != h ==>
      born[g] + gap <= born[h] || born[h] + gap <= born[g]
  }

  /** Every item falls inside the life [born, born + life) of its group. */
  ghost predicate Alive(items: seq<Item>, born: map<int, Time>, life: int) {
    forall i :: 0 <= i < |items| ==>
      items[i].group in born && born[items[i].group] <= items[i].at < born[items[i].group] + life
  }

  lemma Member<T>(s: set<T>) returns (x: T)
    requires s != {}
    ensures x in s
  {
    x :| x in s;
  }

  lemma OneMore(n: int, k: int)
    ensures (n + 1) * k == n * k + k
  {
  }

  lemma GapBefore(born: map<int, Time>, gap: int, x: int, g: int)
    requires gap > 0 && Spaced(born, gap) && x in born && g in born && x != g && born[x] <= born[g]
    ensures born[x] + gap <= born[g]
  {
  }

  /** Points at least `gap` apart inside [lo, hi] cannot be many. */
  lemma {:induction false} SpacedAreFew(groups: set<int>, born: map<int, Time>, gap: int, lo: Time, hi: Time)
    requires gap > 0 && Spaced(born, gap) && groups != {}
    requires forall g :: g in groups ==> g in born && lo <= born[g] <= hi
    ensures (|groups| - 1) * gap <= hi - lo
    decreases |groups|
  {
    var g := Latest(groups, born);
    var rest := groups - {g};
    assert groups == rest + {g};
    if rest == {} {
      assert |groups| == 1;
    } else {
      assert |groups| == |rest| + 1;
      forall x | x in rest ensures born[x] <= born[g] - gap {
        GapBefore(born, gap, x, g);
      }
      SpacedAreFew(rest, born, gap, lo, born[g] - gap);
      OneMore(|rest| - 1, gap);
    }
  }

  lemma {:induction false} Latest(groups: set<int>, born: map<int, Time>) returns (g: int)
    requires groups != {} && forall x :: x in groups ==> x in born
    ensures g in groups && forall x :: x in groups ==> born[x] <= born[g]
    decreases |groups|
  {
    g := Member(groups);
    var rest := groups - {g};
    if rest != {} {
      var h := Latest(rest, born);
      if born[g] < born[h] { g := h; }
    }
  }

  lemma {:induction false} SplitGroup(items: seq<Item>, groups: set<int>, g: int)
    requires g in groups
    ensures OfGroups(items, groups) == OfGroups(items, groups - {g}) + OfGroups(items, {g})
  {
    if items != [] {
      SplitGroup(items[..|items| - 1], groups, g);
    }
  }

  lemma {:induction false} NoGroups(items: seq<Item>)
    ensures OfGroups(items, {}) == 0
  {
    if items != [] {
      NoGroups(items[..|items| - 1]);
    }
  }

  lemma {:induction false} GroupsBound(items: seq<Item>, groups: set<int>, most: nat)
    requires forall g :: g in groups ==> OfGroups(items, {g}) <= most
    ensures OfGroups(items, groups) <= |groups| * most
    decreases |groups|
  {
    if groups == {} {
      NoGroups(items);
    } else {
      var g := Member(groups);
      var rest := groups - {g};
      assert |groups| == |rest| + 1;
      SplitGroup(items, groups, g);
      GroupsBound(items, rest, most);
      OneMore(|rest|, most);
    }
  }

  lemma {:induction false} WindowInGroups(items: seq<Item>, lo: Time, hi: Time, groups: set<int>)
    requires forall i :: 0 <= i < |items| && lo <= items[i].at < hi ==> items[i].group in groups
    ensures InWindow(items, lo, hi) <= OfGroups(items, groups)
  {
    if items != [] {
      WindowInGroups(items[..|items| - 1], lo, hi, groups);
    }
  }

  lemma Scaled(k: nat, a: int, b: int)
    requires a <= b
    ensures a * k <= b * k
  {
  }

  lemma Divided(x: int, y: int)
    requires y > 0
    ensures x < (x / y + 1) * y
  {
    OneMore(x / y, y);
  }

  lemma FewToCeil(n: int, gap: int, span: int)
    requires gap > 0 && (n - 1) * gap <= span - 2
    ensures n <= CeilDiv(span, gap)
  {
    var q := CeilDiv(span, gap);
    OneMore(n - 1, gap);
    Divided(span + gap - 1, gap);
    if q + 1 <= n {
      Scaled(gap, q + 1, n);
      assert false;
    }
  }

  lemma FewGroups(groups: set<int>, born: map<int, Time>, gap: int, first: Time, last: Time, span: int)
    requires gap > 0 && Spaced(born, gap) && groups != {} && span == last - first + 2
    requires forall g :: g in groups ==> g in born && first <= born[g] <= last
    ensures |groups| <= CeilDiv(span, gap)
  {
    SpacedAreFew(groups, born, gap, first, last);
    FewToCeil(|groups|, gap, span);
  }

  /** The burst bound: when groups are born at least `gap` apart, live for
      `life` and own at most `most` items each, no interval of length `span`
      contains more than `ceil((span + life) / gap) * most` items. */
  lemma BurstBound(items: seq<Item>, born: map<int, Time>, most: nat, life: nat, gap: int, lo: Time, span: nat)
    requires gap > 0 && Spaced(born, gap) && Alive(items, born, life)
    requires forall g :: g in born ==> OfGroups(items, {g}) <= most
    ensures InWindow(items, lo, lo + span) <= CeilDiv(span + life, gap) * most
  {
    var groups := set g | g in born && lo - life < born[g] < lo + span;
    WindowInGroups(items, lo, lo + span, groups);
    GroupsBound(items, groups, most);
    if groups == {} {
      assert CeilDiv(span + life, gap) >= 0;
    } else {
      FewGroups(groups, born, gap, lo - life + 1, lo + span - 1, span + life);
    }
    Scaled(most, |groups|, CeilDiv(span + life, gap));
  }
}
