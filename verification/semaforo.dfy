/** The status board of `DashboardSemaforo`: the logged-in percentage and
    the four-row bar it fills, the two banners, and the three status
    columns (in service, paused, free), each with its operators sorted by
    time in status, the ten longest, the average time and the column's
    share of the logged-in operators. */
module Semaforo {
  import opened Wrappers
  import opened Text
  import opened Tempo
  import Arith
  import OperatorStatus

  // ---------------------------------------------------------------------
  // Rounding and percentages
  // ---------------------------------------------------------------------

  /** `Math.round(a / b)` on non-negative integers: the nearest integer,
      halves rounded up. */
  function RoundDiv(a: nat, b: nat): (r: nat)
    requires b >= 1
    ensures 2 * b * r <= 2 * a + b < 2 * b * r + 2 * b
  {
    var q := (2 * a + b) / (2 * b);
    assert 2 * a + b == q * (2 * b) + (2 * a + b) % (2 * b);
    q
  }

  /** `Math.round(part / whole * 100)`, and 0 when `whole` is zero: the
      board's `percent` (logged in over the target) and each column's
      `percentStatus` (its operators over all logged in). */
  function Percent(part: nat, whole: nat): nat
  {
    if whole == 0 then 0 else RoundDiv(part * 100, whole)
  }

  /** Rounding to at most `k` is decided by one comparison. */
  lemma RoundDivAtMost(a: nat, b: nat, k: nat)
    requires b >= 1
    ensures RoundDiv(a, b) <= k <==> 2 * a + b < 2 * b * (k + 1)
  {
    var r := RoundDiv(a, b);
    if r <= k {
      Arith.MulMonotone(r + 1, k + 1, 2 * b);
    } else {
      Arith.MulMonotone(k + 1, r, 2 * b);
    }
  }

  /** A part no larger than the whole is at most 100 percent, and the
      whole itself is exactly 100 percent. */
  lemma PercentAtMost100(part: nat, whole: nat)
    requires part <= whole
    ensures Percent(part, whole) <= 100
    ensures whole > 0 && part == whole ==> Percent(part, whole) == 100
  {
    if whole > 0 {
      RoundDivAtMost(part * 100, whole, 100);
      RoundDivAtMost(part * 100, whole, 99);
    }
  }

  /** The percentage is at most `k` exactly when the ratio is below
      `k + 1/2` percent: `200 * part < (2k + 1) * whole`. */
  lemma PercentAtMost(part: nat, whole: nat, k: nat)
    requires whole >= 1
    ensures Percent(part, whole) <= k <==> 200 * part < (2 * k + 1) * whole
  {
    RoundDivAtMost(part * 100, whole, k);
  }

  /** An answer of the backend never fills the board past 100 percent. */
  lemma SnapshotPercent(s: OperatorStatus.StatusSnapshot)
    requires OperatorStatus.Consistent(s)
    ensures Percent(s.logados, s.meta) <= 100
  {
    PercentAtMost100(s.logados, s.meta);
  }

  // ---------------------------------------------------------------------
  // The bar of logged-in operators
  // ---------------------------------------------------------------------

  /** One of the four rows of the bar, top to bottom. */
  datatype Row = Gray | Green

  /** `linhasLogados` as written: the branch for three green rows stops
      below 99, and the next branch asks for exactly 100, so 99 falls
      through to the all-gray default. */
  function LinhasAsWritten(percent: int): (r: seq<Row>)
    ensures |r| == 4
  {
    if percent <= 24 then [Gray, Gray, Gray, Gray]
    else if 25 <= percent <= 49 then [Gray, Gray, Gray, Green]
    else if 50 <= percent <= 74 then [Gray, Gray, Green, Green]
    else if 75 <= percent < 99 then [Gray, Green, Green, Green]
    else if percent == 100 then [Green, Green, Green, Green]
    else [Gray, Gray, Gray, Gray]
  }

  /** The bar with the three-row band running up to 99. */
  function Linhas(percent: int): (r: seq<Row>)
    ensures |r| == 4
  {
    if percent <= 24 then [Gray, Gray, Gray, Gray]
    else if 25 <= percent <= 49 then [Gray, Gray, Gray, Green]
    else if 50 <= percent <= 74 then [Gray, Gray, Green, Green]
    else if 75 <= percent <= 99 then [Gray, Green, Green, Green]
    else if percent == 100 then [Green, Green, Green, Green]
    else [Gray, Gray, Gray, Gray]
  }

  /** How many rows a percentage earns: one per full quarter, all four
      only at exactly 100, none outside 0..100. */
  function Greens(percent: int): (n: nat)
    ensures n <= 4
  {
    if 25 <= percent <= 99 then percent / 25
    else if percent == 100 then 4
    else 0
  }

  /** The bar fills from the bottom: row `i` is green exactly when the
      percentage earns at least `4 - i` rows. */
  lemma LinhasFillFromBottom(percent: int)
    ensures forall i :: 0 <= i < 4 ==> (Linhas(percent)[i] == Green <==> 4 - i <= Greens(percent))
  {
    if 25 <= percent <= 99 {
      var g := percent / 25;
      assert 1 <= g <= 3 by {
        Arith.DivMonotone(25, percent, 25);
        Arith.DivMonotone(percent, 99, 25);
      }
      if percent <= 49 {
        Arith.DivFromBounds(percent, 25, 1);
      } else if percent <= 74 {
        Arith.DivFromBounds(percent, 25, 2);
      } else {
        Arith.DivFromBounds(percent, 25, 3);
      }
    }
  }

  /** More logged-in operators never light fewer rows. */
  lemma GreensMonotone(p: int, q: int)
    requires 0 <= p <= q <= 100
    ensures Greens(p) <= Greens(q)
  {
    if 25 <= p && q <= 99 {
      Arith.DivMonotone(p, q, 25);
    } else if 25 <= p <= 99 && q == 100 {
      Arith.DivMonotone(p, 99, 25);
      Arith.DivFromBounds(99, 25, 3);
    }
  }

  /** The corrected bar differs from the bar as written at 99 only. */
  lemma LinhasAgree(percent: int)
    ensures percent != 99 <==> Linhas(percent) == LinhasAsWritten(percent)
  {
    if percent == 99 {
      assert Linhas(99)[1] == Green;
    }
  }

  /** 98 of 100 operators logged in light three rows; 99 of 100 light
      none. */
  lemma NinetyNineGoesGray()
    ensures Percent(98, 100) == 98 && Percent(99, 100) == 99
    ensures LinhasAsWritten(Percent(98, 100)) == [Gray, Green, Green, Green]
    ensures LinhasAsWritten(Percent(99, 100)) == [Gray, Gray, Gray, Gray]
    ensures Linhas(Percent(99, 100)) == [Gray, Green, Green, Green]
  {
    Arith.DivFromBounds(2 * 9800 + 100, 200, 98);
    Arith.DivFromBounds(2 * 9900 + 100, 200, 99);
  }

  // ---------------------------------------------------------------------
  // Banners
  // ---------------------------------------------------------------------

  /** The banner of the logged-in card: critical level, maximum energy, or
      none. */
  datatype Banner = Critico | EnergiaMaxima | SemAviso

  function BannerOf(percent: int): (b: Banner)
    ensures b == Critico <==> percent <= 24
    ensures b == EnergiaMaxima <==> percent == 100
  {
    if percent <= 24 then Critico
    else if percent == 100 then EnergiaMaxima
    else SemAviso
  }

  /** In terms of the counts: the critical banner shows when fewer than
      24.5 percent of the target are logged in (always, with no target);
      the maximum-energy banner shows from 99.5 percent up. */
  lemma BannerOfCounts(logados: nat, meta: nat)
    requires logados <= meta
    ensures meta == 0 ==> BannerOf(Percent(logados, meta)) == Critico
    ensures meta > 0 ==> (BannerOf(Percent(logados, meta)) == Critico <==> 200 * logados < 49 * meta)
    ensures meta > 0 ==> (BannerOf(Percent(logados, meta)) == EnergiaMaxima <==> 200 * logados >= 199 * meta)
  {
    if meta > 0 {
      PercentAtMost(logados, meta, 24);
      PercentAtMost(logados, meta, 99);
      PercentAtMost100(logados, meta);
    }
  }

  // ---------------------------------------------------------------------
  // The status columns
  // ---------------------------------------------------------------------

  /** An operator as the board receives it: the description and the time
      in status may be missing. */
  datatype Card = Card(ramal: string, descricaoStatus: Option<string>, tempoStatus: Option<nat>)

  function CardOf(op: OperatorStatus.Operador): Card
  {
    Card(op.ramal, Some(op.descricaoStatus), Some(op.tempoStatus))
  }

  function CardsOf(ops: seq<OperatorStatus.Operador>): (cs: seq<Card>)
    ensures |cs| == |ops|
    ensures forall i :: 0 <= i < |ops| ==> cs[i] == CardOf(ops[i])
  {
    seq(|ops|, i requires 0 <= i < |ops| => CardOf(ops[i]))
  }

  /** The time in status, a missing one read as zero. */
  function TempoOf(c: Card): nat
  {
    AsSeconds(c.tempoStatus)
  }

  datatype Column = Atendimento | Pausa | Livre

  const Columns: seq<Column> := [Atendimento, Pausa, Livre]

  function Keyword(col: Column): string
  {
    match col
    case Atendimento => "atendimento"
    case Pausa => "pausa"
    case Livre => "livre"
  }

  function Label(col: Column): string
  {
    match col
    case Atendimento => "Em Atendimento"
    case Pausa => "Em Pausa"
    case Livre => "Livre"
  }

  /** The description lower-cased with its accents removed; a missing one
      is empty. */
  function Normalised(c: Card): string
  {
    StripAccents(Lower(c.descricaoStatus.GetOr("")))
  }

  predicate Matches(col: Column, c: Card)
  {
    Contains(Normalised(c), Keyword(col))
  }

  /** The operators of a column, in board order: exactly those whose
      normalised description contains the column's keyword, each as often
      as it comes. */
  function Members(col: Column, cards: seq<Card>): (r: seq<Card>)
    ensures |r| <= |cards|
    ensures forall x :: multiset(r)[x] == if Matches(col, x) then multiset(cards)[x] else 0
    decreases |cards|
  {
    if cards == [] then []
    else
      assert cards == [cards[0]] + cards[1..];
      (if Matches(col, cards[0]) then [cards[0]] else []) + Members(col, cards[1..])
  }

  /** The filter keeps board order: the members of two stretches of the
      board are the members of the first followed by those of the second. */
  lemma {:induction false} MembersAppend(col: Column, a: seq<Card>, b: seq<Card>)
    ensures Members(col, a + b) == Members(col, a) + Members(col, b)
    decreases |a|
  {
    if a != [] {
      MembersHead(col, a + b);
      MembersHead(col, a);
      TailOfAppend(a, b);
      MembersAppend(col, a[1..], b);
      Associative(Keep(col, a[0]), Members(col, a[1..]), Members(col, b));
    } else {
      assert a + b == b;
    }
  }

  /** The head card kept or not, as the filter does. */
  function Keep(col: Column, c: Card): seq<Card>
  {
    if Matches(col, c) then [c] else []
  }

  lemma MembersHead(col: Column, s: seq<Card>)
    requires s != []
    ensures Members(col, s) == Keep(col, s[0]) + Members(col, s[1..])
  {
  }

  lemma TailOfAppend(a: seq<Card>, b: seq<Card>)
    requires a != []
    ensures (a + b)[0] == a[0] && (a + b)[1..] == a[1..] + b
  {
  }

  lemma Associative(x: seq<Card>, y: seq<Card>, z: seq<Card>)
    ensures x + (y + z) == (x + y) + z
  {
  }

  /** One card is a member exactly when it matches. */
  lemma MembersOne(col: Column, c: Card)
    ensures Members(col, [c]) == if Matches(col, c) then [c] else []
  {
    assert [c][1..] == [];
  }

  lemma MembersIff(col: Column, cards: seq<Card>, x: Card)
    ensures x in Members(col, cards) <==> x in cards && Matches(col, x)
  {
    assert x in Members(col, cards) <==> multiset(Members(col, cards))[x] > 0;
    assert x in cards <==> multiset(cards)[x] > 0;
  }

  /** Longest time in status first. */
  ghost predicate Descending(s: seq<Card>)
  {
    forall i, j :: 0 <= i < j < |s| ==> TempoOf(s[i]) >= TempoOf(s[j])
  }

  function Sum(cs: seq<Card>): nat
    decreases |cs|
  {
    if cs == [] then 0 else TempoOf(cs[0]) + Sum(cs[1..])
  }

  /** `c` placed before the first card whose time is not longer. */
  function Insert(c: Card, s: seq<Card>): (r: seq<Card>)
    ensures multiset(r) == multiset(s) + multiset{c}
    ensures Sum(r) == TempoOf(c) + Sum(s)
    ensures Descending(s) ==> Descending(r)
    decreases |s|
  {
    if s == [] || TempoOf(c) >= TempoOf(s[0]) then
      InsertFront(c, s);
      [c] + s
    else
      var rest := Insert(c, s[1..]);
      InsertPastFirst(c, s, rest);
      [s[0]] + rest
  }

  /** The card goes first: the step of `Insert` that stops. */
  lemma InsertFront(c: Card, s: seq<Card>)
    requires s == [] || TempoOf(c) >= TempoOf(s[0])
    ensures multiset([c] + s) == multiset(s) + multiset{c}
    ensures Sum([c] + s) == TempoOf(c) + Sum(s)
    ensures Descending(s) ==> Descending([c] + s)
  {
    assert ([c] + s)[1..] == s;
    if Descending(s) {
      var r := [c] + s;
      forall i, j | 0 <= i < j < |r|
        ensures TempoOf(r[i]) >= TempoOf(r[j])
      {
        assert r[j] == s[j - 1];
        if i > 0 {
          assert r[i] == s[i - 1];
        } else {
          assert TempoOf(s[0]) >= TempoOf(s[j - 1]);
        }
      }
    }
  }

  /** The card goes past the head: the step of `Insert` that recurses. */
  lemma InsertPastFirst(c: Card, s: seq<Card>, rest: seq<Card>)
    requires s != [] && TempoOf(c) < TempoOf(s[0])
    requires multiset(rest) == multiset(s[1..]) + multiset{c}
    requires Sum(rest) == TempoOf(c) + Sum(s[1..])
    requires Descending(s[1..]) ==> Descending(rest)
    ensures multiset([s[0]] + rest) == multiset(s) + multiset{c}
    ensures Sum([s[0]] + rest) == TempoOf(c) + Sum(s)
    ensures Descending(s) ==> Descending([s[0]] + rest)
  {
    assert s == [s[0]] + s[1..];
    assert ([s[0]] + rest)[1..] == rest;
    InsertDescending(c, s, rest);
  }

  lemma InsertDescending(c: Card, s: seq<Card>, rest: seq<Card>)
    requires s != [] && TempoOf(c) < TempoOf(s[0])
    requires multiset(rest) == multiset(s[1..]) + multiset{c}
    requires Descending(s[1..]) ==> Descending(rest)
    ensures Descending(s) ==> Descending([s[0]] + rest)
  {
    if Descending(s) {
      forall x | x in rest
        ensures TempoOf(x) <= TempoOf(s[0])
      {
        assert x in multiset(rest);
        if x != c {
          assert x in multiset(s[1..]);
          var j :| 0 <= j < |s[1..]| && s[1..][j] == x;
          assert s[j + 1] == x;
        }
      }
      var r := [s[0]] + rest;
      forall i, j | 0 <= i < j < |r|
        ensures TempoOf(r[i]) >= TempoOf(r[j])
      {
        if i > 0 {
          assert r[i] == rest[i - 1] && r[j] == rest[j - 1];
        } else {
          assert r[j] == rest[j - 1];
          assert r[j] in rest;
        }
      }
    }
  }

  /** The column's sort: by time in status, longest first; it only
      reorders the cards. */
  function SortByTempo(cs: seq<Card>): (r: seq<Card>)
    ensures multiset(r) == multiset(cs)
    ensures |r| == |cs|
    ensures Descending(r)
    ensures Sum(r) == Sum(cs)
    decreases |cs|
  {
    if cs == [] then []
    else
      assert cs == [cs[0]] + cs[1..];
      Insert(cs[0], SortByTempo(cs[1..]))
  }

  /** The cards whose time is `v`, in their order in `s`. */
  function WithTempo(s: seq<Card>, v: nat): seq<Card>
    decreases |s|
  {
    if s == [] then [] else Own(s[0], v) + WithTempo(s[1..], v)
  }

  function Own(x: Card, v: nat): seq<Card>
  {
    if TempoOf(x) == v then [x] else []
  }

  /** `Insert` puts the new card ahead of the cards of equal time and
      leaves their order alone. */
  lemma {:induction false} InsertStable(c: Card, s: seq<Card>, v: nat)
    ensures WithTempo(Insert(c, s), v) == Own(c, v) + WithTempo(s, v)
    decreases |s|
  {
    if s == [] || TempoOf(c) >= TempoOf(s[0]) {
      assert Insert(c, s) == [c] + s;
      WithTempoCons(c, s, v);
    } else {
      InsertStable(c, s[1..], v);
      InsertBehind(c, s, v);
    }
  }

  /** The step of `InsertStable` where the card goes past the head. */
  lemma InsertBehind(c: Card, s: seq<Card>, v: nat)
    requires s != [] && TempoOf(c) < TempoOf(s[0])
    requires WithTempo(Insert(c, s[1..]), v) == Own(c, v) + WithTempo(s[1..], v)
    ensures WithTempo(Insert(c, s), v) == Own(c, v) + WithTempo(s, v)
  {
    InsertPastHead(c, s, v);
    OneSideEmpty(Own(s[0], v), Own(c, v), WithTempo(s[1..], v));
  }

  lemma InsertPastHead(c: Card, s: seq<Card>, v: nat)
    requires s != [] && TempoOf(c) < TempoOf(s[0])
    ensures WithTempo(Insert(c, s), v) == Own(s[0], v) + WithTempo(Insert(c, s[1..]), v)
  {
    var rest := Insert(c, s[1..]);
    assert Insert(c, s) == [s[0]] + rest;
    WithTempoCons(s[0], rest, v);
  }

  lemma OneSideEmpty(a: seq<Card>, b: seq<Card>, w: seq<Card>)
    requires a == [] || b == []
    ensures a + (b + w) == b + (a + w)
  {
  }

  lemma WithTempoCons(x: Card, s: seq<Card>, v: nat)
    ensures WithTempo([x] + s, v) == Own(x, v) + WithTempo(s, v)
  {
    assert ([x] + s)[1..] == s;
  }

  /** The sort is stable, as `Array.prototype.sort` is: cards of equal time
      keep the order they arrived in. */
  lemma {:induction false} SortByTempoStable(cs: seq<Card>, v: nat)
    ensures WithTempo(SortByTempo(cs), v) == WithTempo(cs, v)
    decreases |cs|
  {
    if cs != [] {
      SortByTempoStable(cs[1..], v);
      InsertStable(cs[0], SortByTempo(cs[1..]), v);
    }
  }

  lemma {:induction false} WithTempoAppend(a: seq<Card>, b: seq<Card>, v: nat)
    ensures WithTempo(a + b, v) == WithTempo(a, v) + WithTempo(b, v)
    decreases |a|
  {
    if a != [] {
      TailOfAppend(a, b);
      WithTempoHead(a + b, v);
      WithTempoHead(a, v);
      WithTempoAppend(a[1..], b, v);
      Associative(Own(a[0], v), WithTempo(a[1..], v), WithTempo(b, v));
    } else {
      assert a + b == b;
    }
  }

  /** The column's cards of time `v` are the board's cards of time `v`
      that match the column, in board order: the two filters commute. */
  lemma {:induction false} MembersWithTempo(col: Column, cards: seq<Card>, v: nat)
    ensures WithTempo(Members(col, cards), v) == Members(col, WithTempo(cards, v))
    decreases |cards|
  {
    if cards != [] {
      var c, rest := cards[0], cards[1..];
      MembersHead(col, cards);
      WithTempoAppend(Keep(col, c), Members(col, rest), v);
      KeepOwn(col, c, v);
      WithTempoHead(cards, v);
      MembersAppend(col, Own(c, v), WithTempo(rest, v));
      MembersWithTempo(col, rest, v);
    }
  }

  lemma WithTempoHead(s: seq<Card>, v: nat)
    requires s != []
    ensures WithTempo(s, v) == Own(s[0], v) + WithTempo(s[1..], v)
  {
  }

  /** For one card, keeping by column and keeping by time commute. */
  lemma KeepOwn(col: Column, c: Card, v: nat)
    ensures WithTempo(Keep(col, c), v) == Members(col, Own(c, v))
  {
    if Matches(col, c) {
      assert Keep(col, c) == [c] + [];
      WithTempoCons(c, [], v);
    }
    if TempoOf(c) == v {
      MembersOne(col, c);
    }
  }

  lemma SplitAt(s: seq<Card>, k: nat)
    requires k <= |s|
    ensures s == s[..k] + s[k..]
  {
  }

  lemma PrefixOfAppend(x: seq<Card>, y: seq<Card>)
    ensures x <= x + y
  {
    assert (x + y)[..|x|] == x;
  }

  /** Every card's time is in `[lo, hi]`, so the total is between `n * lo`
      and `n * hi`. */
  lemma {:induction false} SumBounds(cs: seq<Card>, lo: nat, hi: nat)
    requires forall i :: 0 <= i < |cs| ==> lo <= TempoOf(cs[i]) <= hi
    ensures |cs| * lo <= Sum(cs) <= |cs| * hi
    decreases |cs|
  {
    if cs != [] {
      SumBounds(cs[1..], lo, hi);
      OneMore(|cs[1..]|, lo);
      OneMore(|cs[1..]|, hi);
    }
  }

  lemma OneMore(n: nat, x: nat)
    ensures (n + 1) * x == x + n * x
  {
  }

  /** The column's average: the rounded mean of the times, formatted, or
      "0s" for an empty column. */
  function AverageText(cs: seq<Card>): string
  {
    if |cs| > 0 then TempoFormatado(RoundDiv(Sum(cs), |cs|)) else "0s"
  }

  /** The average reads back as a duration, zero for an empty column, and
      otherwise between the shortest and the longest time of the column. */
  lemma AverageWithin(cs: seq<Card>, lo: nat, hi: nat)
    requires forall i :: 0 <= i < |cs| ==> lo <= TempoOf(cs[i]) <= hi
    ensures ReadTempo(AverageText(cs)).Some?
    ensures cs == [] ==> ReadTempo(AverageText(cs)) == Some(0)
    ensures cs != [] ==> lo <= ReadTempo(AverageText(cs)).value <= hi
  {
    if cs == [] {
      ZeroSeconds();
      TempoRoundTrip(0);
    } else {
      var n := |cs|;
      var v := RoundDiv(Sum(cs), n);
      TempoRoundTrip(v);
      SumBounds(cs, lo, hi);
      MeanWithin(Sum(cs), n, lo, hi);
    }
  }

  lemma MeanWithin(sum: nat, n: nat, lo: nat, hi: nat)
    requires n >= 1 && n * lo <= sum <= n * hi
    ensures lo <= RoundDiv(sum, n) <= hi
  {
    RoundDivAtMost(sum, n, hi);
    if lo > 0 {
      RoundDivAtMost(sum, n, lo - 1);
    }
  }

  /** What one column shows. */
  datatype ColumnView = ColumnView(title: string, count: nat, share: nat, average: string, top: seq<Card>)

  /** A column of the board: its title, its members sorted longest first, how many
      there are, their share of the logged-in total, their average time,
      and the first ten of them. */
  function ColumnOf(col: Column, cards: seq<Card>, logadosTotal: nat): ColumnView
  {
    var all := SortByTempo(Members(col, cards));
    ColumnView(Label(col), |all|, Percent(|all|, logadosTotal), AverageText(all), all[..Min(10, |all|)])
  }

  /** The board: one column per status, in the configured order. */
  function Board(cards: seq<Card>, logadosTotal: nat): (r: seq<ColumnView>)
    ensures |r| == |Columns|
    ensures forall i :: 0 <= i < |r| ==> r[i].title == Label(Columns[i]) && r[i].count == |Members(Columns[i], cards)|
  {
    seq(|Columns|, i requires 0 <= i < |Columns| => ColumnOf(Columns[i], cards, logadosTotal))
  }

  /** The titles read "Em Atendimento", "Em Pausa", "Livre", left to
      right. */
  lemma BoardTitles(cards: seq<Card>, logadosTotal: nat)
    ensures var b := Board(cards, logadosTotal);
            b[0].title == "Em Atendimento" && b[1].title == "Em Pausa" && b[2].title == "Livre"
  {
  }

  /** Every column's share is at most 100 when the total covers every
      operator. */
  lemma BoardShares(cards: seq<Card>, logadosTotal: nat)
    requires |cards| <= logadosTotal
    ensures var b := Board(cards, logadosTotal);
            forall i :: 0 <= i < |b| ==> b[i].share <= 100
  {
    var b := Board(cards, logadosTotal);
    forall i | 0 <= i < |b|
      ensures b[i].share <= 100
    {
      ShareAtMost100(Columns[i], cards, logadosTotal);
    }
  }

  function Min(a: nat, b: nat): nat
  {
    if a <= b then a else b
  }

  /** What a column promises: it carries the status's title; its count
      is that of the matching operators; its rows are matching operators,
      longest first, as many as there are up to ten, and none left out has
      a longer time than one shown; among operators of equal time, the ones
      shown are the first on the board, in board order; its share is at
      most 100 when the total covers all operators. */
  lemma ColumnFacts(col: Column, cards: seq<Card>, logadosTotal: nat)
    ensures var v := ColumnOf(col, cards, logadosTotal);
            && v.title == Label(col)
            && v.count == |Members(col, cards)| <= |cards|
            && |v.top| == Min(10, v.count)
            && Descending(v.top)
            && (forall x :: x in v.top ==> x in cards && Matches(col, x))
            && (forall x :: x in cards && Matches(col, x) && x !in v.top ==>
                  forall y :: y in v.top ==> TempoOf(y) >= TempoOf(x))
            && (|cards| <= logadosTotal ==> v.share <= 100)
            && (forall t :: WithTempo(v.top, t) <= Members(col, WithTempo(cards, t)))
  {
    var ms := Members(col, cards);
    var all := SortByTempo(ms);
    TopFacts(all, Min(10, |all|));
    forall x | x in all
      ensures x in cards && Matches(col, x)
    {
      assert x in multiset(all);
      MembersIff(col, cards, x);
    }
    forall x | x in cards && Matches(col, x)
      ensures x in all
    {
      MembersIff(col, cards, x);
      assert x in multiset(all);
    }
    if |cards| <= logadosTotal {
      PercentAtMost100(|all|, logadosTotal);
    }
    ColumnTies(col, cards, logadosTotal);
  }

  /** The tie clause of `ColumnFacts`. */
  lemma ColumnTies(col: Column, cards: seq<Card>, logadosTotal: nat)
    ensures var v := ColumnOf(col, cards, logadosTotal);
            forall t :: WithTempo(v.top, t) <= Members(col, WithTempo(cards, t))
  {
    var top := ColumnOf(col, cards, logadosTotal).top;
    var k := Min(10, |SortByTempo(Members(col, cards))|);
    assert top == SortByTempo(Members(col, cards))[..k];
    forall t
      ensures WithTempo(top, t) <= Members(col, WithTempo(cards, t))
    {
      TiesInBoardOrder(col, cards, k, t);
    }
  }

  /** Among cards of equal time, a prefix of the sorted column holds the
      first ones on the board that match the column. */
  lemma TiesInBoardOrder(col: Column, cards: seq<Card>, k: nat, t: nat)
    requires k <= |SortByTempo(Members(col, cards))|
    ensures var all := SortByTempo(Members(col, cards));
            WithTempo(all[..k], t) <= Members(col, WithTempo(cards, t))
  {
    var all := SortByTempo(Members(col, cards));
    var top, bottom := all[..k], all[k..];
    SplitAt(all, k);
    WithTempoAppend(top, bottom, t);
    PrefixOfAppend(WithTempo(top, t), WithTempo(bottom, t));
    SortByTempoStable(Members(col, cards), t);
    MembersWithTempo(col, cards, t);
  }

  lemma ShareAtMost100(col: Column, cards: seq<Card>, logadosTotal: nat)
    requires |cards| <= logadosTotal
    ensures ColumnOf(col, cards, logadosTotal).share <= 100
  {
    ColumnFacts(col, cards, logadosTotal);
  }

  /** A prefix of a list sorted longest first is sorted, and nothing after
      it is longer than anything in it. */
  lemma TopFacts(all: seq<Card>, k: nat)
    requires Descending(all) && k <= |all|
    ensures Descending(all[..k])
    ensures forall x :: x in all && x !in all[..k] ==> forall y :: y in all[..k] ==> TempoOf(y) >= TempoOf(x)
  {
    var top := all[..k];
    forall x, y | x in all && x !in top && y in top
      ensures TempoOf(y) >= TempoOf(x)
    {
      var j :| 0 <= j < |all| && all[j] == x;
      var i :| 0 <= i < |top| && top[i] == y;
      assert i < k <= j;
    }
  }

  /** On a backend answer every column's share is at most 100. */
  lemma SnapshotShares(s: OperatorStatus.StatusSnapshot, col: Column)
    requires OperatorStatus.Consistent(s)
    ensures ColumnOf(col, CardsOf(s.operadores), s.logadosTotal).share <= 100
  {
    ColumnFacts(col, CardsOf(s.operadores), s.logadosTotal);
  }

  /** The match ignores letter case around and inside the keyword: a
      description holding the keyword in any case puts the operator in the
      column, whatever surrounds it. */
  lemma MatchesAnyCase(col: Column, c: Card, pre: string, k: string, post: string)
    requires c.descricaoStatus == Some(pre + k + post)
    requires Lower(k) == Keyword(col)
    ensures Matches(col, c)
  {
    var kw := Keyword(col);
    var a, b := StripAccents(Lower(pre)), StripAccents(Lower(post));
    KeywordPlain(col);
    assert Normalised(c) == a + kw + b by {
      FoldAppend(pre, k, post);
    }
    ContainsMiddle(a, kw, b);
  }

  /** The keywords carry no accents. */
  lemma KeywordPlain(col: Column)
    ensures StripAccents(Keyword(col)) == Keyword(col)
  {
    StripAccentsPlain(Keyword(col));
  }

  /** Columns overlap: a description naming a pause and a service, as in
      "Pausa pós-Atendimento", puts the operator in both columns. */
  lemma PausaAposAtendimento(c: Card, pre: string, mid: string, post: string)
    requires c.descricaoStatus == Some(pre + "Pausa" + mid + "Atendimento" + post)
    ensures Matches(Pausa, c) && Matches(Atendimento, c)
  {
    assert Lower("Pausa") == "pausa";
    assert Lower("Atendimento") == "atendimento";
    var d := pre + "Pausa" + mid + "Atendimento" + post;
    assert d == pre + "Pausa" + (mid + "Atendimento" + post);
    MatchesAnyCase(Pausa, c, pre, "Pausa", mid + "Atendimento" + post);
    assert d == (pre + "Pausa" + mid) + "Atendimento" + post;
    MatchesAnyCase(Atendimento, c, pre + "Pausa" + mid, "Atendimento", post);
  }
}
