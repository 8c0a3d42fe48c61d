/** The sales ranking board (`DashboardRanking`): the answer of the ranking
    endpoint is unwrapped, each seller's sold amount is turned into a
    number, the sellers are sorted by it, largest first, in place, and the
    first five are shown with a medal or a number each. */
module Ranking {
  import opened Wrappers
  import opened Text

  // ---------------------------------------------------------------------
  // Positions and the rows shown
  // ---------------------------------------------------------------------

  const Medals: seq<string> := ["\U{1F947}", "\U{1F948}", "\U{1F949}"]

  /** What the position column shows: a medal or the 1-based position. */
  datatype PositionLabel = Medal(emoji: string) | Position(n: nat)

  /** `renderPosicao`: gold, silver and bronze for the first three, the
      position counted from one for the rest. */
  function RenderPosicao(idx: nat): (l: PositionLabel)
    ensures idx < 3 ==> l == Medal(Medals[idx])
    ensures idx >= 3 ==> l == Position(idx + 1)
  {
    if idx == 0 then Medal("\U{1F947}")
    else if idx == 1 then Medal("\U{1F948}")
    else if idx == 2 then Medal("\U{1F949}")
    else Position(idx + 1)
  }

  /** No two positions share a label. */
  lemma PositionLabelsDistinct(i: nat, j: nat)
    requires i != j
    ensures RenderPosicao(i) != RenderPosicao(j)
  {
    if i < 3 && j < 3 {
      assert Medals[i] != Medals[j];
    }
  }

  /** The style of a shown row: the three podium styles, then the plain
      top-five style. */
  datatype RowStyle = Podium1 | Podium2 | Podium3 | Top5

  function RowStyleOf(idx: nat): RowStyle
  {
    if idx == 0 then Podium1
    else if idx == 1 then Podium2
    else if idx == 2 then Podium3
    else Top5
  }

  /** A seller once the amount is a number. */
  datatype Seller = Seller(nome: string, equipe: string, foto: Option<string>, valor: real)

  /** A shown row: its label, its style, the seller and the picture
      shown. */
  datatype ListRow = ListRow(position: PositionLabel, style: RowStyle, seller: Seller, photo: string)

  /** `RankingList`: the first five sellers, each with its label, style and
      picture. */
  function RankingList(data: seq<Seller>): (rows: seq<ListRow>)
    ensures |rows| == if |data| < 5 then |data| else 5
    ensures forall i :: 0 <= i < |rows| ==>
              rows[i] == ListRow(RenderPosicao(i), RowStyleOf(i), data[i], PhotoSrc(data[i].foto))
  {
    var k := if |data| < 5 then |data| else 5;
    seq(k, i requires 0 <= i < k => ListRow(RenderPosicao(i), RowStyleOf(i), data[i], PhotoSrc(data[i].foto)))
  }

  /** The podium styles and the medals go together: a shown row has a
      podium style exactly when it has a medal, and at most three rows
      do. */
  lemma PodiumIsMedals(data: seq<Seller>)
    ensures forall i :: 0 <= i < |RankingList(data)| ==>
              (RankingList(data)[i].style != Top5 <==> RankingList(data)[i].position.Medal?)
    ensures forall i :: 3 <= i < |RankingList(data)| ==> RankingList(data)[i].style == Top5
  {
  }

  /** The photo shown: the seller's own when it is not blank, otherwise the
      default picture. */
  const UserDefault: string := "/user-default.png"

  function PhotoSrc(foto: Option<string>): string
  {
    if foto.Some? && foto.value != [] && Trim(foto.value) != [] then foto.value else UserDefault
  }

  lemma PhotoSrcIff(foto: Option<string>)
    ensures PhotoSrc(foto) != UserDefault ==> foto == Some(PhotoSrc(foto))
    ensures foto.Some? && !AllWhitespace(foto.value) ==> PhotoSrc(foto) == foto.value
    ensures foto.None? || AllWhitespace(foto.value) ==> PhotoSrc(foto) == UserDefault
  {
    if foto.Some? {
      TrimEmptyIffBlank(foto.value);
      if foto.value == [] {
        assert AllWhitespace(foto.value);
      }
    }
  }

  // ---------------------------------------------------------------------
  // The answer and the amounts
  // ---------------------------------------------------------------------

  /** A sold amount as received: text, a number, or absent or falsy. */
  datatype Valor = Texto(s: string) | Numero(x: real) | Ausente

  /** A seller as received. */
  datatype Entry = Entry(nome: string, equipe: string, foto: Option<string>, valorVendido: Valor)

  /** The parsed JSON body: an array, an object whose `ranking` field is an
      array (`Some`) or not (`None`), `null`, or some other scalar. */
  datatype Body = ArrayBody(items: seq<Entry>) | ObjectBody(ranking: Option<seq<Entry>>) | NullBody | ScalarBody

  /** The message of the error raised by reading a field of `null`; its
      exact wording belongs to the JavaScript engine. */
  const NullFieldError: string := "Cannot read properties of null (reading 'ranking')"

  /** `rankingArray`: the body itself when it is an array, else its
      `ranking` field when that is an array, else nothing; reading the
      field of a `null` body throws. */
  function RankingArray(b: Body): (r: Result<seq<Entry>>)
    ensures b.ArrayBody? ==> r == Success(b.items)
    ensures b.ObjectBody? && b.ranking.Some? ==> r == Success(b.ranking.value)
    ensures (b.ObjectBody? && b.ranking.None?) || b.ScalarBody? ==> r == Success([])
    ensures r.Failure? <==> b.NullBody?
  {
    match b
    case ArrayBody(items) => Success(items)
    case ObjectBody(ranking) => Success(ranking.GetOr([]))
    case NullBody => Failure(NullFieldError)
    case ScalarBody => Success([])
  }

  /** The text of an amount before `parseFloat`: the first "R$" removed,
      every thousands dot removed, the first decimal comma made a dot. */
  function CleanAmount(s: string): string
  {
    ReplaceFirst(RemoveAll(ReplaceFirst(s, "R$", ""), '.'), ",", ".")
  }

  /** What `parseFloat` can read from the cleaned text has at most one
      decimal point: the cleaned text holds at most one dot. */
  lemma CleanAmountOneDot(s: string)
    ensures Count(CleanAmount(s), '.') <= 1
  {
    var t := RemoveAll(ReplaceFirst(s, "R$", ""), '.');
    RemoveAllRemoves(ReplaceFirst(s, "R$", ""), '.');
    ReplaceFirstCount(t, ',', '.');
  }

  /** The amount as a number: text is cleaned and parsed (`parse` stands
      for `parseFloat`, `None` for NaN), and whatever does not parse, or
      is absent, counts as zero. */
  function AmountOf(v: Valor, parse: string -> Option<real>): (x: real)
    ensures v.Texto? && parse(CleanAmount(v.s)).Some? ==> x == parse(CleanAmount(v.s)).value
    ensures v.Texto? && parse(CleanAmount(v.s)).None? ==> x == 0.0
    ensures v.Numero? ==> x == v.x
    ensures v.Ausente? ==> x == 0.0
  {
    match v
    case Texto(s) => parse(CleanAmount(s)).GetOr(0.0)
    case Numero(x) => x
    case Ausente => 0.0
  }

  /** `formattedData`: every entry with its amount made a number, nothing
      else changed. */
  function FormatData(items: seq<Entry>, parse: string -> Option<real>): (r: seq<Seller>)
    ensures |r| == |items|
    ensures forall i :: 0 <= i < |items| ==>
              r[i] == Seller(items[i].nome, items[i].equipe, items[i].foto, AmountOf(items[i].valorVendido, parse))
  {
    seq(|items|, i requires 0 <= i < |items| =>
      Seller(items[i].nome, items[i].equipe, items[i].foto, AmountOf(items[i].valorVendido, parse)))
  }

  // ---------------------------------------------------------------------
  // The sort
  // ---------------------------------------------------------------------

  /** Largest amount first. */
  predicate Descending(s: seq<Seller>)
  {
    forall k, l :: 0 <= k < l < |s| ==> s[k].valor >= s[l].valor
  }

  /** `formattedData.sort((a, b) => b.valorVendido - a.valorVendido)`, as an
      insertion sort in place: afterwards the amounts never increase down
      the array, and the array holds the same sellers as before. */
  method SortByValor(a: array<Seller>)
    modifies a
    ensures Descending(a[..])
    ensures multiset(a[..]) == multiset(old(a[..]))
  {
    if a.Length == 0 {
      return;
    }
    var i := 1;
    while i < a.Length
      invariant 1 <= i <= a.Length
      invariant Descending(a[..i])
      invariant multiset(a[..]) == multiset(old(a[..]))
    {
      Insert(a, i);
      i := i + 1;
    }
    assert a[..a.Length] == a[..];
  }

  /** Moves `a[i]` down into the sorted prefix `a[..i]`, by swaps. */
  method Insert(a: array<Seller>, i: nat)
    requires 1 <= i < a.Length
    requires Descending(a[..i])
    modifies a
    ensures Descending(a[..i + 1])
    ensures multiset(a[..]) == multiset(old(a[..]))
  {
    var j := i;
    while j > 0 && a[j - 1].valor < a[j].valor
      invariant 0 <= j <= i
      invariant Inserting(a[..i + 1], j)
      invariant multiset(a[..]) == multiset(old(a[..]))
    {
      ghost var before, whole := a[..i + 1], a[..];
      SwapStep(before, j);
      SwapKeepsMultiset(whole, j - 1, j);
      a[j - 1], a[j] := a[j], a[j - 1];
      assert a[..i + 1] == before[j - 1 := before[j]][j := before[j - 1]];
      assert a[..] == whole[j - 1 := whole[j]][j := whole[j - 1]];
      j := j - 1;
    }
    InsertDone(a[..i + 1], j);
  }

  /** The state of `Insert` with the moving seller at `j`: every pair not
      involving `j` is in order, and the moving seller is larger than
      everything behind it. */
  ghost predicate Inserting(s: seq<Seller>, j: nat)
  {
    && j < |s|
    && (forall k, l :: 0 <= k < l < |s| && k != j && l != j ==> s[k].valor >= s[l].valor)
    && (forall l :: j < l < |s| ==> s[j].valor > s[l].valor)
  }

  lemma SwapStep(s: seq<Seller>, j: nat)
    requires 0 < j < |s|
    requires Inserting(s, j)
    requires s[j - 1].valor < s[j].valor
    ensures Inserting(s[j - 1 := s[j]][j := s[j - 1]], j - 1)
  {
  }

  lemma SwapKeepsMultiset(s: seq<Seller>, x: nat, y: nat)
    requires x < |s| && y < |s|
    ensures multiset(s[x := s[y]][y := s[x]]) == multiset(s)
  {
  }

  lemma InsertDone(s: seq<Seller>, j: nat)
    requires Inserting(s, j)
    requires j == 0 || s[j - 1].valor >= s[j].valor
    ensures Descending(s)
  {
  }

  // ---------------------------------------------------------------------
  // The board
  // ---------------------------------------------------------------------

  /** How a refresh ends: a JSON body, an HTTP status other than success,
      or a failure of the request or of the JSON decoding with its
      message. */
  datatype FetchResult = Received(body: Body) | HttpError(status: nat) | Thrown(message: string)

  function HttpErrorMessage(status: nat): string
  {
    "Erro HTTP: " + NatToString(status)
  }

  /** What the board shows. */
  datatype View = Carregando | Erro(message: string) | Lista(rows: seq<ListRow>) | NenhumDado

  /** The board's state: the ranking, the loading flag and the error. */
  class Board {
    var rankingData: seq<Seller>
    var loading: bool
    var error: Option<string>

    constructor()
      ensures rankingData == [] && loading && error.None?
    {
      rankingData := [];
      loading := true;
      error := None;
    }

    /** The view: loading first, then the error, then the list, then the
        empty notice. The error is tested for truthiness, so an empty
        message counts as no error. */
    function ViewOf(): (v: View)
      reads this
      ensures loading ==> v == Carregando
      ensures !loading && error.Some? && error.value != "" ==> v == Erro(error.value)
      ensures !loading && (error.None? || error.value == "") && rankingData != [] ==>
                v == Lista(RankingList(rankingData))
      ensures !loading && (error.None? || error.value == "") && rankingData == [] ==> v == NenhumDado
    {
      if loading then Carregando
      else if error.Some? && error.value != "" then Erro(error.value)
      else if |rankingData| > 0 then Lista(RankingList(rankingData))
      else NenhumDado
    }

    /** One refresh. A good body becomes the sorted ranking and ends the
        loading; every failure empties the ranking, records its message
        and ends the loading. A success leaves an earlier error in place. */
    method Refresh(result: FetchResult, parse: string -> Option<real>)
      modifies this
      ensures !loading
      ensures result.Received? && RankingArray(result.body).Success? ==>
                && multiset(rankingData) == multiset(FormatData(RankingArray(result.body).value, parse))
                && Descending(rankingData)
                && error == old(error)
      ensures result.HttpError? ==> rankingData == [] && error == Some(HttpErrorMessage(result.status))
      ensures result.Thrown? ==> rankingData == [] && error == Some(result.message)
      ensures result.Received? && RankingArray(result.body).Failure? ==>
                rankingData == [] && error == Some(RankingArray(result.body).error)
    {
      match result
      case HttpError(status) =>
        error := Some(HttpErrorMessage(status));
        rankingData := [];
        loading := false;
      case Thrown(message) =>
        error := Some(message);
        rankingData := [];
        loading := false;
      case Received(body) =>
        var extracted := RankingArray(body);
        match extracted
        case Failure(message) =>
          error := Some(message);
          rankingData := [];
          loading := false;
        case Success(items) =>
          var formatted := FormatData(items, parse);
          var a := new Seller[|formatted|](i requires 0 <= i < |formatted| => formatted[i]);
          assert a[..] == formatted;
          SortByValor(a);
          rankingData := a[..];
          loading := false;
    }

    /** As written, an error outlives every later good refresh: after a
        refresh that failed with a message and one that brought sellers,
        the board still shows the message instead of the ranking. */
    method StaleErrorShown(m: string, body: Body, parse: string -> Option<real>)
      requires m != "" && RankingArray(body).Success? && RankingArray(body).value != []
      modifies this
      ensures ViewOf() == Erro(m)
      ensures rankingData != []
    {
      Refresh(Thrown(m), parse);
      Refresh(Received(body), parse);
      assert |multiset(rankingData)| == |FormatData(RankingArray(body).value, parse)|;
    }

    /** One refresh as intended: as `Refresh`, except that a good body also
        clears an earlier error, so the board shows the ranking it received,
        or the empty notice when it holds no seller. */
    method RefreshCorrected(result: FetchResult, parse: string -> Option<real>)
      modifies this
      ensures !loading
      ensures result.Received? && RankingArray(result.body).Success? ==>
                && multiset(rankingData) == multiset(FormatData(RankingArray(result.body).value, parse))
                && Descending(rankingData)
                && error.None?
                && (RankingArray(result.body).value != [] ==> ViewOf() == Lista(RankingList(rankingData)))
                && (RankingArray(result.body).value == [] ==> ViewOf() == NenhumDado)
      ensures result.HttpError? ==> rankingData == [] && error == Some(HttpErrorMessage(result.status))
      ensures result.Thrown? ==> rankingData == [] && error == Some(result.message)
      ensures result.Received? && RankingArray(result.body).Failure? ==>
                rankingData == [] && error == Some(RankingArray(result.body).error)
    {
      Refresh(result, parse);
      if result.Received? && RankingArray(result.body).Success? {
        error := None;
        assert |multiset(rankingData)| == |FormatData(RankingArray(result.body).value, parse)|;
      }
    }
  }
}
