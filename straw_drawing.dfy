/**
 * The straw-drawing game (StrawDrawingView): `totalPeople` straws, exactly
 * `pickCount` of them winning, shuffled and then drawn one tap at a time
 * while the winners drawn so far are collected in draw order.
 *
 * The two random shuffles arrive as permutations of positions; each new
 * straw's UUID is modelled as a number never handed out before.
 */
module StrawDrawing {
  import opened Records
  import opened Text

  /** `Straw`: an identity, the name written on it, whether it has been drawn, whether it wins. */
  datatype Straw = Straw(id: nat, name: string, isSelected: bool, isWinner: bool)

  /** The Stepper bounds on the number of people. */
  const MaxPeople: int := 20

  // ---------------------------------------------------------------------------
  // Permutations and the shuffle
  // ---------------------------------------------------------------------------

  /** `p` lists each of 0..n-1 exactly once. */
  predicate IsPermutation(p: seq<nat>, n: nat) {
    && |p| == n
    && (forall i :: 0 <= i < n ==> p[i] < n)
    && (forall i, j :: 0 <= i < j < n ==> p[i] != p[j])
  }

  /** `s` rearranged so that position i holds what was at position p[i]. */
  function Shuffled<T>(s: seq<T>, p: seq<nat>): (t: seq<T>)
    requires |p| == |s| && forall i :: 0 <= i < |p| ==> p[i] < |s|
    ensures |t| == |s|
  {
    seq(|p|, i requires 0 <= i < |p| => s[p[i]])
  }

  /** The positions of `p` renumbered as if position `m` had been taken out. */
  function Renumbered(p: seq<nat>, m: nat): (q: seq<nat>)
    ensures |q| == |p|
  {
    seq(|p|, i requires 0 <= i < |p| => if p[i] <= m then p[i] else p[i] - 1)
  }

  /**
   * The last element of a shuffle comes from position m = p[n-1]; the ones
   * before it are the shuffle of what is left once position m is taken out.
   */
  lemma ShuffleLastStep<T>(s: seq<T>, p: seq<nat>) returns (rest: seq<T>, q: seq<nat>)
    requires IsPermutation(p, |s|) && |s| > 0
    ensures rest == s[..p[|s| - 1]] + s[p[|s| - 1] + 1..]
    ensures IsPermutation(q, |rest|)
    ensures Shuffled(s, p) == Shuffled(rest, q) + [s[p[|s| - 1]]]
  {
    var n, m := |s| - 1, p[|s| - 1];
    rest := s[..m] + s[m + 1..];
    q := Renumbered(p[..n], m);
    forall i | 0 <= i < n ensures q[i] < n && rest[q[i]] == s[p[i]] {
      assert p[i] != m;
    }
    forall i, j | 0 <= i < j < n ensures q[i] != q[j] {
      assert p[i] != m && p[j] != m && p[i] != p[j];
    }
  }

  /** A shuffle by a permutation keeps every element, as often as it occurred. */
  lemma {:induction false} ShuffledIsPermutation<T>(s: seq<T>, p: seq<nat>)
    requires IsPermutation(p, |s|)
    ensures multiset(Shuffled(s, p)) == multiset(s)
    decreases |s|
  {
    if |s| > 0 {
      var rest, q := ShuffleLastStep(s, p);
      ShuffledIsPermutation(rest, q);
      MultisetWithout(s, p[|s| - 1]);
    }
  }

  /** Taking out position k takes one copy of its element out of the multiset. */
  lemma MultisetWithout<T>(s: seq<T>, k: nat)
    requires k < |s|
    ensures multiset(s) == multiset(s[..k] + s[k + 1..]) + multiset{s[k]}
  {
    assert s == s[..k] + [s[k]] + s[k + 1..];
  }

  /** A shuffle keeps the number of winning straws. */
  lemma {:induction false} ShuffledCount(s: seq<Straw>, p: seq<nat>)
    requires IsPermutation(p, |s|)
    ensures CountWinners(Shuffled(s, p)) == CountWinners(s)
    decreases |s|
  {
    if |s| > 0 {
      var rest, q := ShuffleLastStep(s, p);
      ShuffledCount(rest, q);
      CountWithout(s, p[|s| - 1]);
      CountLast(Shuffled(rest, q), s[p[|s| - 1]]);
    }
  }

  /** Straws that carried different identities still do after the shuffle. */
  lemma ShuffledKeepsIdsDistinct(s: seq<Straw>, p: seq<nat>)
    requires IsPermutation(p, |s|) && IdsDistinct(s)
    ensures IdsDistinct(Shuffled(s, p))
  {
  }

  predicate IdsDistinct(s: seq<Straw>) {
    forall i, j :: 0 <= i < j < |s| ==> s[i].id != s[j].id
  }

  // ---------------------------------------------------------------------------
  // Counting winners
  // ---------------------------------------------------------------------------

  function Won(x: Straw): nat {
    if x.isWinner then 1 else 0
  }

  function WonAndDrawn(x: Straw): nat {
    if x.isWinner && x.isSelected then 1 else 0
  }

  /** The number of winning straws. */
  function CountWinners(s: seq<Straw>): nat {
    if s == [] then 0 else Won(s[0]) + CountWinners(s[1..])
  }

  /** The number of winning straws already drawn. */
  function CountDrawnWinners(s: seq<Straw>): nat {
    if s == [] then 0 else WonAndDrawn(s[0]) + CountDrawnWinners(s[1..])
  }

  lemma {:induction false} CountsAppend(a: seq<Straw>, b: seq<Straw>)
    ensures CountWinners(a + b) == CountWinners(a) + CountWinners(b)
    ensures CountDrawnWinners(a + b) == CountDrawnWinners(a) + CountDrawnWinners(b)
  {
    if a != [] {
      CountsAppend(a[1..], b);
      assert (a + b)[1..] == a[1..] + b;
    } else {
      assert a + b == b;
    }
  }

  /** Both counts split around position k. */
  lemma CountsAtPosition(s: seq<Straw>, k: nat)
    requires k < |s|
    ensures CountWinners(s) == CountWinners(s[..k]) + Won(s[k]) + CountWinners(s[k + 1..])
    ensures CountDrawnWinners(s) == CountDrawnWinners(s[..k]) + WonAndDrawn(s[k]) + CountDrawnWinners(s[k + 1..])
  {
    assert s == s[..k] + [s[k]] + s[k + 1..];
    CountsAppend(s[..k] + [s[k]], s[k + 1..]);
    CountsAppend(s[..k], [s[k]]);
    assert [s[k]][1..] == [];
  }

  lemma CountWithout(s: seq<Straw>, k: nat)
    requires k < |s|
    ensures CountWinners(s) == CountWinners(s[..k] + s[k + 1..]) + Won(s[k])
  {
    CountsAtPosition(s, k);
    CountsAppend(s[..k], s[k + 1..]);
  }

  lemma CountLast(s: seq<Straw>, x: Straw)
    ensures CountWinners(s + [x]) == CountWinners(s) + Won(x)
  {
    CountsAppend(s, [x]);
    assert [x][1..] == [];
  }

  /**
   * Drawing an undrawn straw leaves the number of winning straws as it was
   * and adds one drawn winner exactly when the straw wins.
   */
  lemma CountsAfterDraw(s: seq<Straw>, k: nat)
    requires k < |s| && !s[k].isSelected
    ensures var after := s[k := s[k].(isSelected := true)];
      && CountWinners(after) == CountWinners(s)
      && CountDrawnWinners(after) == CountDrawnWinners(s) + Won(s[k])
  {
    var after := s[k := s[k].(isSelected := true)];
    CountsAtPosition(s, k);
    CountsAtPosition(after, k);
    assert after[..k] == s[..k] && after[k + 1..] == s[k + 1..];
  }

  /** Never more winners are drawn than there are, and as many only once every winner is drawn. */
  lemma {:induction false} DrawnWinnersBounded(s: seq<Straw>)
    ensures CountDrawnWinners(s) <= CountWinners(s)
    ensures CountDrawnWinners(s) == CountWinners(s) ==>
              forall k :: 0 <= k < |s| && s[k].isWinner ==> s[k].isSelected
  {
    if s != [] {
      DrawnWinnersBounded(s[1..]);
      if CountDrawnWinners(s) == CountWinners(s) {
        forall k | 0 <= k < |s| && s[k].isWinner ensures s[k].isSelected {
          if k > 0 {
            assert s[k] == s[1..][k - 1];
          }
        }
      }
    }
  }

  /** The positions named in `chosen` that fall below `n`, as a count of straws that win. */
  lemma {:induction false} DealtCount(names: seq<string>, chosen: seq<nat>, firstId: nat, n: nat)
    requires n <= |names|
    ensures CountWinners(Dealt(names, chosen, firstId)[..n]) == |PositionsBelow(chosen, n)|
  {
    var d := Dealt(names, chosen, firstId);
    if n > 0 {
      DealtCount(names, chosen, firstId, n - 1);
      assert d[..n] == d[..n - 1] + [d[n - 1]];
      CountsAppend(d[..n - 1], [d[n - 1]]);
      assert [d[n - 1]][1..] == [];
      if n - 1 in chosen {
        assert PositionsBelow(chosen, n) == PositionsBelow(chosen, n - 1) + {n - 1};
      } else {
        assert PositionsBelow(chosen, n) == PositionsBelow(chosen, n - 1);
      }
    } else {
      assert PositionsBelow(chosen, 0) == {};
    }
  }

  function PositionsBelow(chosen: seq<nat>, n: nat): set<nat> {
    set x | x in chosen && x < n
  }

  /** A list of distinct numbers all below `n` names `|list|` of the positions below `n`. */
  lemma {:induction false} DistinctPositions(chosen: seq<nat>, n: nat)
    requires forall i :: 0 <= i < |chosen| ==> chosen[i] < n
    requires forall i, j :: 0 <= i < j < |chosen| ==> chosen[i] != chosen[j]
    ensures |PositionsBelow(chosen, n)| == |chosen|
  {
    if chosen != [] {
      var k := |chosen| - 1;
      DistinctPositions(chosen[..k], n);
      assert chosen == chosen[..k] + [chosen[k]];
      assert PositionsBelow(chosen, n) == PositionsBelow(chosen[..k], n) + {chosen[k]};
      assert chosen[k] !in PositionsBelow(chosen[..k], n);
    } else {
      assert PositionsBelow(chosen, n) == {};
    }
  }

  // ---------------------------------------------------------------------------
  // The default names "사람 1" … "사람 n"
  // ---------------------------------------------------------------------------

  function DigitChar(d: nat): char
    requires d < 10
  {
    (d + '0' as int) as char
  }

  /** The decimal numeral of `n`, as string interpolation writes it. */
  function DecimalString(n: nat): (s: string)
    ensures s != [] && forall i :: 0 <= i < |s| ==> '0' <= s[i] <= '9'
  {
    if n < 10 then [DigitChar(n)] else DecimalString(n / 10) + [DigitChar(n % 10)]
  }

  /** The number a numeral denotes. */
  function DecimalValue(s: string): nat
    requires forall i :: 0 <= i < |s| ==> '0' <= s[i] <= '9'
  {
    if s == [] then 0 else DecimalValue(s[..|s| - 1]) * 10 + (s[|s| - 1] as int - '0' as int)
  }

  /** Reading a numeral back gives the number it was written from. */
  lemma {:induction false} DecimalRoundTrip(n: nat)
    ensures DecimalValue(DecimalString(n)) == n
  {
    if n >= 10 {
      DecimalRoundTrip(n / 10);
      var s := DecimalString(n);
      assert s[..|s| - 1] == DecimalString(n / 10);
    }
  }

  const NamePrefix: string := "사람 "

  /** `(1...n).map { "사람 \($0)" }` */
  function DefaultNames(n: nat): (names: seq<string>)
    ensures |names| == n
    ensures forall i :: 0 <= i < n ==> names[i] == NamePrefix + DecimalString(i + 1)
  {
    seq(n, i requires 0 <= i < n => NamePrefix + DecimalString(i + 1))
  }

  lemma PrefixCancel(p: string, a: string, b: string)
    requires p + a == p + b
    ensures a == b
  {
    assert a == (p + a)[|p|..];
    assert b == (p + b)[|p|..];
  }

  /** The default names are pairwise different. */
  lemma DefaultNamesDistinct(n: nat, i: nat, j: nat)
    requires i < j < n
    ensures DefaultNames(n)[i] != DefaultNames(n)[j]
  {
    if DefaultNames(n)[i] == DefaultNames(n)[j] {
      PrefixCancel(NamePrefix, DecimalString(i + 1), DecimalString(j + 1));
      DecimalRoundTrip(i + 1);
      DecimalRoundTrip(j + 1);
    }
  }

  // ---------------------------------------------------------------------------
  // Dealing the straws
  // ---------------------------------------------------------------------------

  /**
   * `names.enumerated().map { … }` before the shuffle: straw i carries name i,
   * is undrawn, and wins exactly when i is among the chosen winner positions.
   */
  function Dealt(names: seq<string>, winnerIndices: seq<nat>, firstId: nat): (s: seq<Straw>)
    ensures |s| == |names|
  {
    seq(|names|, i requires 0 <= i < |names| => Straw(firstId + i, names[i], false, i in winnerIndices))
  }

  /**
   * With the first `pickCount` entries of a permutation of 0..totalPeople-1
   * as winner positions and at least `totalPeople` names, exactly `pickCount`
   * straws win.
   */
  lemma DealtWinners(names: seq<string>, perm: seq<nat>, totalPeople: nat, pickCount: nat, firstId: nat)
    requires IsPermutation(perm, totalPeople) && pickCount <= totalPeople <= |names|
    ensures CountWinners(Dealt(names, perm[..pickCount], firstId)) == pickCount
  {
    var chosen := perm[..pickCount];
    var d := Dealt(names, chosen, firstId);
    DealtCount(names, chosen, firstId, |names|);
    DistinctPositions(chosen, |names|);
    assert d[..|names|] == d;
  }

  /**
   * The shuffled deal: one undrawn straw per name, identities distinct and
   * all from `firstId` on, exactly `pickCount` winning, and the same straws
   * as dealt, only reordered.
   */
  lemma ShuffledDeal(names: seq<string>, perm: seq<nat>, order: seq<nat>, totalPeople: nat, pickCount: nat, firstId: nat)
    requires IsPermutation(perm, totalPeople) && pickCount <= totalPeople <= |names|
    requires IsPermutation(order, |names|)
    ensures var t := Shuffled(Dealt(names, perm[..pickCount], firstId), order);
      && |t| == |names| && IdsDistinct(t) && CountWinners(t) == pickCount && CountDrawnWinners(t) == 0
      && (forall i :: 0 <= i < |t| ==> !t[i].isSelected && firstId <= t[i].id < firstId + |names|)
      && multiset(t) == multiset(Dealt(names, perm[..pickCount], firstId))
  {
    var dealt := Dealt(names, perm[..pickCount], firstId);
    DealtWinners(names, perm, totalPeople, pickCount, firstId);
    ShuffledIsPermutation(dealt, order);
    ShuffledKeepsIdsDistinct(dealt, order);
    ShuffledCount(dealt, order);
    NoneDrawn(Shuffled(dealt, order));
  }

  lemma {:induction false} NoneDrawn(s: seq<Straw>)
    requires forall i :: 0 <= i < |s| ==> !s[i].isSelected
    ensures CountDrawnWinners(s) == 0
  {
    if s != [] {
      NoneDrawn(s[1..]);
    }
  }

  // ---------------------------------------------------------------------------
  // What holds while drawing
  // ---------------------------------------------------------------------------

  /**
   * `winners` is exactly the drawn winning straws in draw order: `drawn[i]`
   * is the position the i-th winner was drawn from, no position is listed
   * twice, and there are as many as there are drawn winning straws.
   */
  predicate DrawingOk(straws: seq<Straw>, winners: seq<Straw>, drawn: seq<nat>) {
    && |winners| == |drawn| == CountDrawnWinners(straws)
    && (forall i :: 0 <= i < |drawn| ==>
          && drawn[i] < |straws| && straws[drawn[i]].isSelected && straws[drawn[i]].isWinner
          && winners[i] == straws[drawn[i]])
    && (forall i, j :: 0 <= i < j < |drawn| ==> drawn[i] != drawn[j])
  }

  /** No more winners are collected than there are winning straws. */
  lemma WinnersBounded(straws: seq<Straw>, winners: seq<Straw>, drawn: seq<nat>)
    requires DrawingOk(straws, winners, drawn)
    ensures |winners| <= CountWinners(straws)
  {
    DrawnWinnersBounded(straws);
  }

  /** Once as many winners are collected as there are winning straws, every winning straw has been drawn. */
  lemma AllWinnersDrawn(straws: seq<Straw>, winners: seq<Straw>, drawn: seq<nat>)
    requires DrawingOk(straws, winners, drawn) && |winners| == CountWinners(straws)
    ensures forall k :: 0 <= k < |straws| && straws[k].isWinner ==> straws[k].isSelected
  {
    DrawnWinnersBounded(straws);
  }

  /** Each straw is collected at most once: the winners carry pairwise different identities. */
  lemma WinnersDistinct(straws: seq<Straw>, winners: seq<Straw>, drawn: seq<nat>)
    requires DrawingOk(straws, winners, drawn) && IdsDistinct(straws)
    ensures forall i, j :: 0 <= i < j < |winners| ==> winners[i].id != winners[j].id
  {
  }

  /**
   * Drawing an undrawn straw: only that straw changes, the number of winning
   * straws stays, and collecting it (if it wins) keeps the winners exact.
   */
  lemma DrawKeepsDrawingOk(straws: seq<Straw>, winners: seq<Straw>, drawn: seq<nat>, k: nat)
    requires DrawingOk(straws, winners, drawn)
    requires k < |straws| && !straws[k].isSelected
    ensures var after := straws[k := straws[k].(isSelected := true)];
      && CountWinners(after) == CountWinners(straws)
      && DrawingOk(after,
                   if straws[k].isWinner then winners + [after[k]] else winners,
                   if straws[k].isWinner then drawn + [k] else drawn)
  {
    CountsAfterDraw(straws, k);
    if straws[k].isWinner {
      DrawWinnerKeepsDrawingOk(straws, winners, drawn, k);
    } else {
      DrawLoserKeepsDrawingOk(straws, winners, drawn, k);
    }
  }

  /** A drawn losing straw is not collected, and the winners stay exact. */
  lemma DrawLoserKeepsDrawingOk(straws: seq<Straw>, winners: seq<Straw>, drawn: seq<nat>, k: nat)
    requires DrawingOk(straws, winners, drawn)
    requires k < |straws| && !straws[k].isSelected && !straws[k].isWinner
    ensures DrawingOk(straws[k := straws[k].(isSelected := true)], winners, drawn)
  {
    var after := straws[k := straws[k].(isSelected := true)];
    CountsAfterDraw(straws, k);
    forall i | 0 <= i < |drawn| ensures after[drawn[i]] == straws[drawn[i]] {
      assert drawn[i] != k;
    }
  }

  /** A drawn winning straw is collected last, from position k, and the winners stay exact. */
  lemma DrawWinnerKeepsDrawingOk(straws: seq<Straw>, winners: seq<Straw>, drawn: seq<nat>, k: nat)
    requires DrawingOk(straws, winners, drawn)
    requires k < |straws| && !straws[k].isSelected && straws[k].isWinner
    ensures var after := straws[k := straws[k].(isSelected := true)];
      DrawingOk(after, winners + [after[k]], drawn + [k])
  {
    var after := straws[k := straws[k].(isSelected := true)];
    var w := winners + [after[k]];
    var d := drawn + [k];
    CountsAfterDraw(straws, k);
    forall i | 0 <= i < |d|
      ensures d[i] < |after| && after[d[i]].isSelected && after[d[i]].isWinner && w[i] == after[d[i]]
    {
      if i < |drawn| {
        assert d[i] == drawn[i] && w[i] == winners[i] && drawn[i] != k;
      }
    }
    forall i, j | 0 <= i < j < |d| ensures d[i] != d[j] {
      if j < |drawn| {
        assert d[i] == drawn[i] && d[j] == drawn[j];
      } else {
        assert d[i] == drawn[i];
      }
    }
  }

  /** Drawing changes no identity: distinct identities stay distinct, and a bound on them still holds. */
  lemma DrawKeepsIds(straws: seq<Straw>, k: nat, bound: nat)
    requires k < |straws|
    ensures var after := straws[k := straws[k].(isSelected := true)];
      && (IdsDistinct(straws) ==> IdsDistinct(after))
      && (IdsBelow(straws, bound) ==> IdsBelow(after, bound))
  {
    var after := straws[k := straws[k].(isSelected := true)];
    assert forall i :: 0 <= i < |after| ==> after[i].id == straws[i].id;
    IdsBelowEach(straws, bound);
    IdsBelowEach(after, bound);
  }

  /** Every straw's identity lies below `bound`: none of them can be handed out again from `bound` on. */
  predicate IdsBelow(s: seq<Straw>, bound: nat) {
    s == [] || (s[0].id < bound && IdsBelow(s[1..], bound))
  }

  /** `IdsBelow` straw by straw. */
  lemma {:induction false} IdsBelowEach(s: seq<Straw>, bound: nat)
    ensures IdsBelow(s, bound) <==> forall i :: 0 <= i < |s| ==> s[i].id < bound
  {
    if s != [] {
      IdsBelowEach(s[1..], bound);
      assert forall i :: 1 <= i < |s| ==> s[i] == s[1..][i - 1];
    }
  }

  /** The game's invariant, over the state it concerns. */
  predicate GameOk(totalPeople: nat, pickCount: nat, isDrawing: bool,
                   straws: seq<Straw>, winners: seq<Straw>, drawn: seq<nat>)
  {
    && 1 <= pickCount < totalPeople <= MaxPeople
    && IdsDistinct(straws)
    && DrawingOk(straws, winners, drawn)
    && (isDrawing ==> CountWinners(straws) == pickCount)
    && (!isDrawing ==> straws == [] && winners == [])
  }

  /** The game's invariant together with the bound `nextId` on the identities dealt so far. */
  predicate StrawGameOk(totalPeople: nat, pickCount: nat, isDrawing: bool,
                        straws: seq<Straw>, winners: seq<Straw>, drawn: seq<nat>, nextId: nat)
  {
    GameOk(totalPeople, pickCount, isDrawing, straws, winners, drawn) && IdsBelow(straws, nextId)
  }

  /** Drawing the undrawn straw at position k keeps the game's invariant. */
  lemma DrawKeepsGameOk(totalPeople: nat, pickCount: nat, isDrawing: bool,
                        straws: seq<Straw>, winners: seq<Straw>, drawn: seq<nat>, k: nat)
    requires GameOk(totalPeople, pickCount, isDrawing, straws, winners, drawn)
    requires k < |straws| && !straws[k].isSelected
    ensures var picked := straws[k].(isSelected := true);
      GameOk(totalPeople, pickCount, isDrawing, straws[k := picked],
             if picked.isWinner then winners + [picked] else winners,
             if picked.isWinner then drawn + [k] else drawn)
  {
    DrawKeepsDrawingOk(straws, winners, drawn, k);
    DrawKeepsIds(straws, k, 0);
  }

  /** The heading of the final alert's message. */
  const WinnersHeading: string := "당첨자:"

  /** The final alert's message: the heading, then each winner's name on a line of its own. */
  function WinnersMessage(winners: seq<Straw>): string {
    var names := seq(|winners|, i requires 0 <= i < |winners| => winners[i].name);
    WinnersHeading + "\n" + (if names == [] then "" else Join(names, '\n'))
  }

  /** Read line by line, the message gives back the heading and the winners' names in draw order. */
  lemma WinnersMessageLines(winners: seq<Straw>)
    requires winners != [] && forall i :: 0 <= i < |winners| ==> '\n' !in winners[i].name
    ensures Split(WinnersMessage(winners), '\n') ==
              [WinnersHeading] + seq(|winners|, i requires 0 <= i < |winners| => winners[i].name)
  {
    var names := seq(|winners|, i requires 0 <= i < |winners| => winners[i].name);
    var lines := [WinnersHeading] + names;
    assert '\n' !in WinnersHeading;
    assert lines[1..] == names;
    assert Join(lines, '\n') == WinnersMessage(winners);
    SplitOfJoin(lines, '\n');
  }

  class StrawGame {
    var totalPeople: nat
    var pickCount: nat
    var names: seq<string>
    var straws: seq<Straw>
    var winners: seq<Straw>
    var isDrawing: bool
    var showNameInput: bool
    var showResult: bool
    var currentStraw: Option<Straw>
    var showStrawAnimation: bool
    var showAlert: bool
    /** The next identity to hand out; straws dealt later never reuse an earlier one. */
    var nextId: nat
    /** For each collected winner, the position it was drawn from. */
    ghost var drawn: seq<nat>

    /**
     * The Steppers' bounds hold, while drawing exactly `pickCount` straws win
     * and `winners` is exact, and every straw's identity lies below `nextId`.
     */
    ghost predicate Valid()
      reads this
    {
      StrawGameOk(totalPeople, pickCount, isDrawing, straws, winners, drawn, nextId)
    }

    constructor ()
      ensures Valid()
      ensures totalPeople == 6 && pickCount == 2 && names == [] && straws == [] && winners == []
      ensures !isDrawing && !showNameInput && !showResult && currentStraw == None
      ensures !showStrawAnimation && !showAlert
    {
      totalPeople := 6;
      pickCount := 2;
      names := [];
      straws := [];
      winners := [];
      isDrawing := false;
      showNameInput := false;
      showResult := false;
      currentStraw := None;
      showStrawAnimation := false;
      showAlert := false;
      nextId := 0;
      drawn := [];
    }

    /** The "총원" Stepper, over (pickCount + 1)...20; disabled while drawing. */
    method StepTotalPeople(up: bool)
      requires Valid() && !isDrawing
      modifies this`totalPeople
      ensures Valid()
      ensures up ==> totalPeople == if old(totalPeople) < MaxPeople then old(totalPeople) + 1 else old(totalPeople)
      ensures !up ==> totalPeople == if old(totalPeople) > pickCount + 1 then old(totalPeople) - 1 else old(totalPeople)
    {
      if up {
        if totalPeople < MaxPeople {
          totalPeople := totalPeople + 1;
        }
      } else if totalPeople > pickCount + 1 {
        totalPeople := totalPeople - 1;
      }
    }

    /** The "뽑을 인원" Stepper, over 1...(totalPeople - 1); disabled while drawing. */
    method StepPickCount(up: bool)
      requires Valid() && !isDrawing
      modifies this`pickCount
      ensures Valid()
      ensures up ==> pickCount == if old(pickCount) < totalPeople - 1 then old(pickCount) + 1 else old(pickCount)
      ensures !up ==> pickCount == if old(pickCount) > 1 then old(pickCount) - 1 else old(pickCount)
    {
      if up {
        if pickCount < totalPeople - 1 {
          pickCount := pickCount + 1;
        }
      } else if pickCount > 1 {
        pickCount := pickCount - 1;
      }
    }

    /** The "이름 입력하기" toggle; disabled while drawing. */
    method SetShowNameInput(on: bool)
      requires Valid() && !isDrawing
      modifies this`showNameInput
      ensures Valid() && showNameInput == on
    {
      showNameInput := on;
    }

    /**
     * Typing into name field `index` (0 <= index < totalPeople): an existing
     * name is replaced; otherwise the text is appended, at position |names|
     * whichever field it was typed into.
     */
    method SetName(index: nat, text: string)
      requires Valid() && !isDrawing && showNameInput && index < totalPeople
      modifies this`names
      ensures Valid()
      ensures index < |old(names)| ==> names == old(names)[index := text]
      ensures index >= |old(names)| ==> names == old(names) + [text]
    {
      if index < |names| {
        names := names[index := text];
      } else {
        names := names + [text];
      }
    }

    /** The names `generateStraws` deals to: the typed ones if there are enough, otherwise the defaults. */
    function NextNames(): (next: seq<string>)
      reads this
      ensures |next| >= totalPeople
      ensures showNameInput && |names| >= totalPeople ==> next == names
    {
      if !showNameInput || |names| < totalPeople then DefaultNames(totalPeople) else names
    }

    /**
     * `generateStraws`: the names settled, one undrawn straw per name,
     * exactly `pickCount` of them winning (the positions listed first in the
     * permutation `perm`), then the straws shuffled by `order`.
     */
    method GenerateStraws(perm: seq<nat>, order: seq<nat>)
      requires 1 <= pickCount < totalPeople <= MaxPeople && isDrawing && winners == []
      requires IsPermutation(perm, totalPeople) && IsPermutation(order, |NextNames()|)
      modifies this`names, this`straws, this`nextId, this`drawn
      ensures Valid()
      ensures names == old(NextNames())
      ensures straws == Shuffled(Dealt(names, perm[..pickCount], old(nextId)), order)
      ensures |straws| == |names| && CountWinners(straws) == pickCount
      ensures forall i :: 0 <= i < |straws| ==> !straws[i].isSelected && straws[i].id >= old(nextId)
      ensures nextId == old(nextId) + |names|
    {
      if !showNameInput || |names| < totalPeople {
        names := DefaultNames(totalPeople);
      }
      ShuffledDeal(names, perm, order, totalPeople, pickCount, nextId);
      straws := Shuffled(Dealt(names, perm[..pickCount], nextId), order);
      nextId := nextId + |names|;
      drawn := [];
      IdsBelowEach(straws, nextId);
    }

    /** `startDrawing`: the game begins with no winners and freshly dealt straws. */
    method StartDrawing(perm: seq<nat>, order: seq<nat>)
      requires Valid() && !isDrawing
      requires IsPermutation(perm, totalPeople) && IsPermutation(order, |NextNames()|)
      modifies this`isDrawing, this`winners, this`names, this`straws, this`nextId, this`drawn
      ensures Valid() && isDrawing && winners == []
      ensures names == old(NextNames())
      ensures straws == Shuffled(Dealt(names, perm[..pickCount], old(nextId)), order)
      ensures forall i :: 0 <= i < |straws| ==> straws[i].id >= old(nextId)
      ensures nextId == old(nextId) + |names|
    {
      isDrawing := true;
      winners := [];
      GenerateStraws(perm, order);
    }

    /** `restartDrawing` (the alert's "다시시작"): the same settings, winners cleared, straws dealt again. */
    method RestartDrawing(perm: seq<nat>, order: seq<nat>)
      requires Valid()
      requires IsPermutation(perm, totalPeople) && IsPermutation(order, |NextNames()|)
      modifies this`isDrawing, this`winners, this`names, this`straws, this`nextId, this`drawn
      ensures Valid() && isDrawing && winners == []
      ensures names == old(NextNames())
      ensures straws == Shuffled(Dealt(names, perm[..pickCount], old(nextId)), order)
      ensures forall i :: 0 <= i < |straws| ==> straws[i].id >= old(nextId)
      ensures nextId == old(nextId) + |names|
    {
      isDrawing := true;
      winners := [];
      GenerateStraws(perm, order);
    }

    /** `resetGame` (the alert's "새 게임"): no game, no straws, no winners, no names. */
    method ResetGame()
      requires Valid()
      modifies this`isDrawing, this`straws, this`winners, this`names, this`drawn
      ensures Valid()
      ensures !isDrawing && straws == [] && winners == [] && names == []
    {
      isDrawing := false;
      straws := [];
      winners := [];
      names := [];
      drawn := [];
    }

    /**
     * `drawStraw(straw:)`, for the straw as currently shown: an already drawn
     * straw, or one no longer dealt, changes nothing; otherwise exactly that
     * straw becomes drawn, is shown, and is collected if it wins.
     */
    method DrawStraw(straw: Straw)
      requires Valid()
      requires forall k :: 0 <= k < |straws| && straws[k].id == straw.id ==> straws[k] == straw
      modifies this`straws, this`currentStraw, this`showResult, this`winners, this`drawn
      ensures Valid()
      ensures straw.isSelected || PositionOf(old(straws), straw.id).None? ==>
                straws == old(straws) && winners == old(winners)
                && currentStraw == old(currentStraw) && showResult == old(showResult)
      ensures !straw.isSelected && PositionOf(old(straws), straw.id).Some? ==>
                var picked := straw.(isSelected := true);
                && straws == old(straws)[PositionOf(old(straws), straw.id).value := picked]
                && currentStraw == Some(picked) && showResult
                && winners == if straw.isWinner then old(winners) + [picked] else old(winners)
    {
      if straw.isSelected {
        return;
      }
      var index := FirstIndexOf(straws, straw.id);
      if index.None? {
        return;
      }
      var k := index.value;
      var picked := straws[k].(isSelected := true);
      var strawsAfter := straws[k := picked];
      var winnersAfter := if picked.isWinner then winners + [picked] else winners;
      ghost var drawnAfter := if picked.isWinner then drawn + [k] else drawn;
      DrawKeepsGameOk(totalPeople, pickCount, isDrawing, straws, winners, drawn, k);
      DrawKeepsIds(straws, k, nextId);
      assert StrawGameOk(totalPeople, pickCount, isDrawing, strawsAfter, winnersAfter, drawnAfter, nextId);
      straws, winners, drawn := strawsAfter, winnersAfter, drawnAfter;
      currentStraw := Some(picked);
      showResult := true;
    }

    /** While the game is valid, never more winners are collected than `pickCount`. */
    lemma WinnersAtMostPickCount()
      requires Valid()
      ensures |winners| <= pickCount
    {
      WinnersBounded(straws, winners, drawn);
    }

    /** The result card's `onAppear`: the card grows in. */
    method ResultAppeared()
      modifies this`showStrawAnimation
      ensures showStrawAnimation
    {
      showStrawAnimation := true;
    }

    /**
     * One second after the card for `shown` appeared: it closes, and if
     * `shown` won and the last winner has now been collected, the final
     * alert opens, by which time every winning straw has been drawn.
     */
    method ResultDismissed(shown: Straw)
      requires Valid()
      modifies this`showResult, this`showStrawAnimation, this`showAlert
      ensures Valid()
      ensures !showResult && !showStrawAnimation
      ensures showAlert == (old(showAlert) || (shown.isWinner && |winners| == pickCount))
      ensures showAlert && !old(showAlert) ==>
                forall k :: 0 <= k < |straws| && straws[k].isWinner ==> straws[k].isSelected
    {
      showResult := false;
      showStrawAnimation := false;
      if shown.isWinner {
        if |winners| == pickCount {
          showAlert := true;
          if isDrawing {
            AllWinnersDrawn(straws, winners, drawn);
          }
        }
      }
    }
  }

  /** The first position holding the straw with identity `id`, if any. */
  function PositionOf(straws: seq<Straw>, id: nat): (k: Option<nat>)
    ensures k.None? <==> forall j :: 0 <= j < |straws| ==> straws[j].id != id
    ensures k.Some? ==> k.value < |straws| && straws[k.value].id == id
                        && forall j :: 0 <= j < k.value ==> straws[j].id != id
  {
    if straws == [] then None
    else if straws[0].id == id then Some(0)
    else match PositionOf(straws[1..], id)
      case None => None
      case Some(k) => Some(k + 1)
  }

  /** `straws.firstIndex(where: { $0.id == id })`, scanning from the front. */
  method FirstIndexOf(straws: seq<Straw>, id: nat) returns (index: Option<nat>)
    ensures index == PositionOf(straws, id)
  {
    for i := 0 to |straws|
      invariant forall k :: 0 <= k < i ==> straws[k].id != id
    {
      if straws[i].id == id {
        return Some(i);
      }
    }
    return None;
  }
}
