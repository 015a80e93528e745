/**
 The daily puzzle evaluator: a whole play is evaluated from scratch, so what it says about a play
 and about an extension of that play must agree.
 */
module DailyEvaluator {
  import opened Prelude

  type GameId = int

  datatype Mode = Cover | Artwork | Keywords | Specs

  datatype Status = InProgress | Won | Lost

  datatype GuessResult = Correct | SameFranchise | Wrong | Skipped

  datatype Match = Full | Partial | NoMatch

  datatype Direction = Higher | Lower

  datatype Column =
    | ReleaseYear | Genres | Platforms | Companies | Franchise | Themes | GameModes | Perspectives | GameEngines

  datatype Named = Named(id: int, name: string)

  datatype GameData = GameData(
    id: GameId,
    name: string,
    slug: string,
    year: Option<int>,
    coverUrl: Option<string>,
    franchises: seq<Named>,
    genres: seq<Named>,
    platforms: seq<Named>,
    themes: seq<Named>,
    gameModes: seq<Named>,
    perspectives: seq<Named>,
    gameEngines: seq<Named>,
    companies: seq<Named>)

  /** A guess of None is a skip. */
  type Guess = Option<GameData>

  datatype Input = Input(
    mode: Mode,
    answer: GameData,
    guesses: seq<Guess>,
    hintAt: Option<int>,
    keywords: seq<string>,
    thisYear: int)

  datatype SetColumn = SetColumn(verdict: Match, values: seq<string>)

  datatype YearColumn = YearColumn(verdict: Match, value: Option<int>, direction: Option<Direction>)

  datatype Feedback = Feedback(
    gameId: Option<GameId>,
    name: Option<string>,
    result: GuessResult,
    commonGenres: seq<string>,
    commonPlatforms: seq<string>,
    columns: map<Column, SetColumn>,
    year: Option<YearColumn>)

  datatype Range = Range(min: int, max: int)

  /** `year` is the revealed value of the release year column. */
  datatype Reveal = Reveal(column: Column, values: seq<string>, year: Option<int>)

  datatype Evaluation = Evaluation(
    attempts: int,
    status: Status,
    feedback: seq<Feedback>,
    imageLevel: Option<int>,
    keywords: seq<string>,
    yearRange: Option<Range>,
    revealed: Option<Reveal>,
    hintAvailable: bool,
    answer: Option<GameData>)

  datatype Refusal = HintUnavailable | TooManyAttempts | GuessAfterCorrect

  const DAILY_MIN_YEAR := 1950
  const HINT_MIN_GUESSES := 5
  const YEAR_SPREAD := 5
  const REVEAL_ORDER :=
    [ReleaseYear, Genres, Platforms, Companies, Franchise, Themes, GameModes, Perspectives, GameEngines]

  function MaxAttempts(mode: Mode): int {
    if mode == Specs then 10 else 6
  }

  // ----- set columns -----

  function Ids(items: seq<Named>): set<int> {
    set i | 0 <= i < |items| :: items[i].id
  }

  predicate UniqueIds(items: seq<Named>) {
    forall i, j :: 0 <= i < j < |items| ==> items[i].id != items[j].id
  }

  /** The names of the guess's items the answer also has, in the guess's order. */
  function Common(guess: seq<Named>, answer: seq<Named>): seq<string> {
    if guess == [] then []
    else
      var rest := Common(guess[..|guess| - 1], answer);
      var last := guess[|guess| - 1];
      if last.id in Ids(answer) then rest + [last.name] else rest
  }

  function SetMatch(guess: seq<Named>, answer: seq<Named>): Match {
    var shared := |Common(guess, answer)|;
    if shared == |guess| && shared == |answer| then Full
    else if shared > 0 then Partial
    else NoMatch
  }

  lemma IdsOfAppend(init: seq<Named>, last: Named)
    ensures Ids(init + [last]) == Ids(init) + {last.id}
  {
    var items := init + [last];
    assert items[|init|] == last;
    assert forall i :: 0 <= i < |init| ==> items[i] == init[i];
    forall id | id in Ids(init) ensures id in Ids(items) {
      var i :| 0 <= i < |init| && init[i].id == id;
      assert items[i].id == id;
    }
  }

  lemma OneMoreShared(a: set<int>, b: set<int>, x: int)
    requires x !in a
    ensures |(a + {x}) * b| == |a * b| + (if x in b then 1 else 0) && |a + {x}| == |a| + 1
  {
    assert (a + {x}) * b == a * b + (if x in b then {x} else {});
  }

  lemma {:induction false} CommonCounts(guess: seq<Named>, answer: seq<Named>)
    requires UniqueIds(guess)
    ensures |Common(guess, answer)| == |Ids(guess) * Ids(answer)| && |Ids(guess)| == |guess|
  {
    if guess == [] {
      assert Ids(guess) * Ids(answer) == {};
    } else {
      var init, last := guess[..|guess| - 1], guess[|guess| - 1];
      CommonCounts(init, answer);
      assert guess == init + [last];
      IdsOfAppend(init, last);
      assert last.id !in Ids(init);
      OneMoreShared(Ids(init), Ids(answer), last.id);
    }
  }

  lemma SameSize(part: set<int>, whole: set<int>)
    requires part <= whole
    ensures |part| <= |whole| && (|part| == |whole| ==> part == whole)
  {
    assert whole == part + (whole - part);
  }

  /** Counting names decides set equality and overlap, two empty sets included. */
  lemma SetMatchMeaning(guess: seq<Named>, answer: seq<Named>)
    requires UniqueIds(guess) && UniqueIds(answer)
    ensures SetMatch(guess, answer) == Full <==> Ids(guess) == Ids(answer)
    ensures SetMatch(guess, answer) == Partial <==> Ids(guess) != Ids(answer) && Ids(guess) * Ids(answer) != {}
  {
    CommonCounts(guess, answer);
    CommonCounts(answer, guess);
    var both := Ids(guess) * Ids(answer);
    assert both == Ids(answer) * Ids(guess);
    SameSize(both, Ids(guess));
    SameSize(both, Ids(answer));
    assert Ids(guess) == Ids(answer) ==> both == Ids(guess);
  }

  // ----- the year hint -----

  function GuessYearColumn(guess: Option<int>, answer: Option<int>): YearColumn {
    if guess.None? || answer.None? then YearColumn(NoMatch, guess, None)
    else
      var diff := answer.value - guess.value;
      YearColumn(
        if diff == 0 then Full else if -YEAR_SPREAD <= diff <= YEAR_SPREAD then Partial else NoMatch,
        guess,
        if diff > 0 then Some(Higher) else if diff < 0 then Some(Lower) else None)
  }

  /** One guess of the loop of yearRange. */
  function Narrow(range: Range, guess: Guess, answer: int): Range {
    if guess.None? || guess.value.year.None? then range
    else
      var year := guess.value.year.value;
      var diff := answer - year;
      if diff > 0 then
        Range(Max(range.min, year + 1), if diff <= YEAR_SPREAD then Min(range.max, year + YEAR_SPREAD) else range.max)
      else if diff < 0 then
        Range(if diff >= -YEAR_SPREAD then Max(range.min, year - YEAR_SPREAD) else range.min, Min(range.max, year - 1))
      else Range(answer, answer)
  }

  function StartRange(answer: int, thisYear: int): Range {
    Range(Min(DAILY_MIN_YEAR, answer), Max(thisYear, answer))
  }

  function YearRange(guesses: seq<Guess>, answer: int, thisYear: int): Range {
    if guesses == [] then StartRange(answer, thisYear)
    else
      var range := YearRange(guesses[..|guesses| - 1], answer, thisYear);
      if Exact(guesses[..|guesses| - 1], answer) then range else Narrow(range, guesses[|guesses| - 1], answer)
  }

  /** Some guess has the answer's year; the loop stops there. */
  predicate Exact(guesses: seq<Guess>, answer: int) {
    exists i :: 0 <= i < |guesses| && guesses[i].Some? && guesses[i].value.year == Some(answer)
  }

  /** The column shows the guess's year, where the answer lies from there, and how close it is. */
  lemma YearColumnMeaning(guess: Option<int>, answer: Option<int>)
    ensures var shown := GuessYearColumn(guess, answer);
      && shown.value == guess
      && (shown.direction == Some(Higher) <==> guess.Some? && answer.Some? && guess.value < answer.value)
      && (shown.direction == Some(Lower) <==> guess.Some? && answer.Some? && answer.value < guess.value)
      && (shown.verdict == Full <==> guess.Some? && guess == answer)
      && (shown.verdict == Partial <==>
            guess.Some? && answer.Some? && guess != answer && guess.value - 5 <= answer.value <= guess.value + 5)
  {
  }

  /** What a player can infer about the answer's year from one shown column. */
  predicate Fits(year: int, shown: YearColumn) {
    shown.value.Some? ==>
      var g := shown.value.value;
      && (shown.direction == Some(Higher) ==> g < year)
      && (shown.direction == Some(Lower) ==> year < g)
      && (shown.verdict == Full ==> year == g)
      && (shown.verdict == Partial ==> g - 5 <= year <= g + 5)
  }

  /** No column shown contradicts the year, and it is not before 1950 or in the future, unless the answer is. */
  predicate Possible(year: int, guesses: seq<Guess>, answer: int, thisYear: int) {
    && (1950 <= year || answer <= year) && (year <= thisYear || year <= answer)
    && forall i :: 0 <= i < |guesses| && guesses[i].Some? ==>
         Fits(year, GuessYearColumn(guesses[i].value.year, Some(answer)))
  }

  predicate FitsGuess(year: int, guess: Guess, answer: int) {
    guess.Some? ==> Fits(year, GuessYearColumn(guess.value.year, Some(answer)))
  }

  /** The hint range is exactly the years the year columns leave possible. */
  lemma {:induction false} YearRangeExact(guesses: seq<Guess>, answer: int, thisYear: int, year: int)
    ensures var range := YearRange(guesses, answer, thisYear);
      && (range.min <= year <= range.max <==> Possible(year, guesses, answer, thisYear))
      && range.min <= answer <= range.max
      && (Exact(guesses, answer) ==> range == Range(answer, answer))
  {
    if guesses != [] {
      var init, last := guesses[..|guesses| - 1], guesses[|guesses| - 1];
      YearRangeExact(init, answer, thisYear, year);
      assert guesses == init + [last];
      assert Possible(year, guesses, answer, thisYear) <==>
          Possible(year, init, answer, thisYear) && FitsGuess(year, last, answer);
      assert Exact(guesses, answer) <==> Exact(init, answer) || (last.Some? && last.value.year == Some(answer));
    }
  }

  /** The range does not depend on the order of the guesses, nor on repeats. */
  lemma YearRangeIgnoresOrder(a: seq<Guess>, b: seq<Guess>, answer: int, thisYear: int)
    requires forall g :: g in a <==> g in b
    ensures YearRange(a, answer, thisYear) == YearRange(b, answer, thisYear)
  {
    forall year ensures Possible(year, a, answer, thisYear) <==> Possible(year, b, answer, thisYear) {
      assert (forall i :: 0 <= i < |a| ==> FitsGuess(year, a[i], answer)) <==>
             forall g :: g in a ==> FitsGuess(year, g, answer);
      assert (forall i :: 0 <= i < |b| ==> FitsGuess(year, b[i], answer)) <==>
             forall g :: g in b ==> FitsGuess(year, g, answer);
    }
    var ra, rb := YearRange(a, answer, thisYear), YearRange(b, answer, thisYear);
    YearRangeExact(a, answer, thisYear, ra.min);
    YearRangeExact(b, answer, thisYear, ra.min);
    YearRangeExact(a, answer, thisYear, ra.max);
    YearRangeExact(b, answer, thisYear, ra.max);
    YearRangeExact(a, answer, thisYear, rb.min);
    YearRangeExact(b, answer, thisYear, rb.min);
    YearRangeExact(a, answer, thisYear, rb.max);
    YearRangeExact(b, answer, thisYear, rb.max);
  }

  /** More guesses can only shrink the range. */
  lemma YearRangeShrinks(a: seq<Guess>, more: seq<Guess>, answer: int, thisYear: int)
    ensures var before, after := YearRange(a, answer, thisYear), YearRange(a + more, answer, thisYear);
            before.min <= after.min && after.max <= before.max
  {
    var after := YearRange(a + more, answer, thisYear);
    forall year | year == after.min || year == after.max ensures Possible(year, a, answer, thisYear) {
      YearRangeExact(a + more, answer, thisYear, year);
      assert forall i :: 0 <= i < |a| ==> (a + more)[i] == a[i];
    }
    YearRangeExact(a, answer, thisYear, after.min);
    YearRangeExact(a, answer, thisYear, after.max);
  }

  /** The loop of yearRange, early return included. */
  method ComputeYearRange(guesses: seq<Guess>, answer: int, thisYear: int) returns (range: Range)
    ensures range == YearRange(guesses, answer, thisYear)
  {
    var min, max := Min(DAILY_MIN_YEAR, answer), Max(thisYear, answer);
    for i := 0 to |guesses|
      invariant Range(min, max) == YearRange(guesses[..i], answer, thisYear) && !Exact(guesses[..i], answer)
    {
      assert guesses[..i + 1][..i] == guesses[..i] && guesses[..i + 1] == guesses[..i] + [guesses[i]];
      var guess := guesses[i];
      if guess.None? || guess.value.year.None? { continue; }
      var year := guess.value.year.value;
      var diff := answer - year;
      if diff == 0 {
        YearRangeExact(guesses[..i + 1], answer, thisYear, answer);
        ExactStays(guesses, i + 1, answer, thisYear);
        return Range(answer, answer);
      }
      if diff > 0 {
        min := Max(min, year + 1);
        if diff <= YEAR_SPREAD { max := Min(max, year + YEAR_SPREAD); }
      } else {
        max := Min(max, year - 1);
        if diff >= -YEAR_SPREAD { min := Max(min, year - YEAR_SPREAD); }
      }
    }
    assert guesses[..|guesses|] == guesses;
    range := Range(min, max);
  }

  lemma ExactStays(guesses: seq<Guess>, n: nat, answer: int, thisYear: int)
    requires n <= |guesses| && Exact(guesses[..n], answer)
    ensures YearRange(guesses, answer, thisYear) == Range(answer, answer)
  {
    var i :| 0 <= i < n && guesses[..n][i].Some? && guesses[..n][i].value.year == Some(answer);
    assert guesses[i] == guesses[..n][i];
    YearRangeExact(guesses, answer, thisYear, answer);
  }

  // ----- feedback -----

  function List(game: GameData, column: Column): seq<Named> {
    match column
    case ReleaseYear => []
    case Genres => game.genres
    case Platforms => game.platforms
    case Companies => game.companies
    case Franchise => game.franchises
    case Themes => game.themes
    case GameModes => game.gameModes
    case Perspectives => game.perspectives
    case GameEngines => game.gameEngines
  }

  function ColumnMatch(guess: GameData, answer: GameData, column: Column): Match {
    if column == ReleaseYear then GuessYearColumn(guess.year, answer.year).verdict
    else SetMatch(List(guess, column), List(answer, column))
  }

  function Names(items: seq<Named>): seq<string> {
    seq(|items|, i requires 0 <= i < |items| => items[i].name)
  }

  /** The franchise and release year columns carry no value list. */
  function SpecsColumns(guess: GameData, answer: GameData): map<Column, SetColumn> {
    map column | column in REVEAL_ORDER ::
      SetColumn(ColumnMatch(guess, answer, column), if column == Franchise then [] else Names(List(guess, column)))
  }

  function FeedbackFor(mode: Mode, guess: Guess, answer: GameData): Feedback {
    if guess.None? then Feedback(None, None, Skipped, [], [], map[], None)
    else
      var g := guess.value;
      var result :=
        if g.id == answer.id then Correct
        else if Common(g.franchises, answer.franchises) != [] then SameFranchise
        else Wrong;
      Feedback(Some(g.id), Some(g.name), result, Common(g.genres, answer.genres), Common(g.platforms, answer.platforms),
               if mode == Specs then SpecsColumns(g, answer) else map[],
               if mode == Specs then Some(GuessYearColumn(g.year, answer.year)) else None)
  }

  function AllFeedback(mode: Mode, guesses: seq<Guess>, answer: GameData): seq<Feedback> {
    seq(|guesses|, i requires 0 <= i < |guesses| => FeedbackFor(mode, guesses[i], answer))
  }

  predicate Matched(feedback: seq<Feedback>, column: Column) {
    exists i :: 0 <= i < |feedback| && column in feedback[i].columns && feedback[i].columns[column].verdict == Full
  }

  /** DAILY_REVEAL_ORDER.find: the first column no guess matched. */
  function FirstUnmatched(feedback: seq<Feedback>, columns: seq<Column>): Option<Column> {
    if columns == [] then None
    else if !Matched(feedback, columns[0]) then Some(columns[0])
    else FirstUnmatched(feedback, columns[1..])
  }

  function RevealOf(column: Column, answer: GameData): Reveal {
    if column == ReleaseYear then Reveal(column, [], answer.year) else Reveal(column, Names(List(answer, column)), None)
  }

  // ----- a whole play -----

  function FirstCorrect(guesses: seq<Guess>, answer: GameId): (i: int)
    ensures i == -1 || (0 <= i < |guesses| && IsCorrect(guesses[i], answer))
    ensures forall j :: 0 <= j < (if i == -1 then |guesses| else i) ==> !IsCorrect(guesses[j], answer)
  {
    if guesses == [] then -1
    else
      var i := FirstCorrect(guesses[..|guesses| - 1], answer);
      if i != -1 then i
      else if IsCorrect(guesses[|guesses| - 1], answer) then |guesses| - 1
      else -1
  }

  predicate IsCorrect(guess: Guess, answer: GameId) {
    guess.Some? && guess.value.id == answer
  }

  function Attempts(x: Input): int {
    |x.guesses| + (if x.hintAt.Some? then 1 else 0)
  }

  function StatusOf(x: Input): Status {
    if FirstCorrect(x.guesses, x.answer.id) != -1 then Won
    else if Attempts(x) >= MaxAttempts(x.mode) then Lost
    else InProgress
  }

  function Refused(x: Input): Option<Refusal> {
    var correct := FirstCorrect(x.guesses, x.answer.id);
    if x.hintAt.Some? && (x.mode != Specs || x.hintAt.value < HINT_MIN_GUESSES || x.hintAt.value > |x.guesses|)
    then Some(HintUnavailable)
    else if Attempts(x) > MaxAttempts(x.mode) then Some(TooManyAttempts)
    else if correct != -1 && correct != |x.guesses| - 1 then Some(GuessAfterCorrect)
    else None
  }

  function ImageLevel(mode: Mode, attempts: int): Option<int> {
    if mode == Cover || mode == Artwork then Some(Min(attempts, 5))
    else if mode == Keywords && attempts >= MaxAttempts(mode) - 1 then Some(0)
    else None
  }

  function KeywordHints(x: Input): seq<string> {
    if x.mode == Keywords then x.keywords[..Min(|x.keywords|, 3 + Attempts(x))] else []
  }

  function RangeHint(x: Input): Option<Range> {
    if x.mode == Specs && x.answer.year.Some? then Some(YearRange(x.guesses, x.answer.year.value, x.thisYear)) else None
  }

  /** Only the guesses made before the hint count, so later matches cannot move the reveal. */
  function RevealHint(x: Input): Option<Reveal> {
    if x.mode == Specs && x.hintAt.Some? && 0 <= x.hintAt.value <= |x.guesses| then
      var column := FirstUnmatched(AllFeedback(x.mode, x.guesses, x.answer)[..x.hintAt.value], REVEAL_ORDER);
      if column.Some? then Some(RevealOf(column.value, x.answer)) else None
    else None
  }

  function Evaluate(x: Input): Result<Evaluation, Refusal> {
    if Refused(x).Some? then Err(Refused(x).value)
    else
      var status := StatusOf(x);
      Ok(Evaluation(
        Attempts(x), status, AllFeedback(x.mode, x.guesses, x.answer),
        ImageLevel(x.mode, Attempts(x)), KeywordHints(x), RangeHint(x), RevealHint(x),
        x.mode == Specs && status == InProgress && x.hintAt.None? && |x.guesses| >= HINT_MIN_GUESSES,
        if status == InProgress then None else Some(x.answer)))
  }

  /**
   Which plays are valid, and how they end: a hint only in specs mode after five guesses that exist,
   no more attempts than the mode allows, and nothing after the correct guess. The answer is shown
   when the play is over; the hint is offered exactly when taking it now would be accepted and useful.
   */
  lemma OutcomeMeaning(x: Input)
    ensures Evaluate(x).Ok? <==>
      && (x.hintAt.Some? ==> x.mode == Specs && 5 <= x.hintAt.value <= |x.guesses|)
      && |x.guesses| + (if x.hintAt.Some? then 1 else 0) <= (if x.mode == Specs then 10 else 6)
      && forall i :: 0 <= i < |x.guesses| - 1 ==> x.guesses[i].None? || x.guesses[i].value.id != x.answer.id
    ensures Evaluate(x).Err? ==> Evaluate(x).error == Why(x)
    ensures Evaluate(x).Ok? ==>
      var e := Evaluate(x).value;
      && e.attempts == |x.guesses| + (if x.hintAt.Some? then 1 else 0)
      && (e.status == Won <==>
            |x.guesses| > 0 && var last := x.guesses[|x.guesses| - 1]; last.Some? && last.value.id == x.answer.id)
      && (e.status == Lost <==> e.status != Won && e.attempts == (if x.mode == Specs then 10 else 6))
      && e.answer == (if e.status == InProgress then None else Some(x.answer))
      && (e.hintAvailable <==> x.mode == Specs && e.status == InProgress && x.hintAt == None && |x.guesses| >= 5)
      && (e.hintAvailable ==> Evaluate(x.(hintAt := Some(|x.guesses|))).Ok?)
  {
  }

  /** The first thing wrong with a play that is refused. */
  function Why(x: Input): Refusal {
    if x.hintAt.Some? && !(x.mode == Specs && 5 <= x.hintAt.value <= |x.guesses|) then HintUnavailable
    else if |x.guesses| + (if x.hintAt.Some? then 1 else 0) > (if x.mode == Specs then 10 else 6) then TooManyAttempts
    else GuessAfterCorrect
  }

  /** Which hints a valid play shows: sharper images, more keywords, and the year range, each in its own modes. */
  lemma HintsMeaning(x: Input)
    requires Evaluate(x).Ok?
    ensures var e := Evaluate(x).value;
      && (x.mode == Cover || x.mode == Artwork ==>
            e.imageLevel.Some? && e.imageLevel.value <= 5
            && (e.imageLevel.value == e.attempts || e.attempts > e.imageLevel.value == 5))
      && (x.mode == Keywords ==> e.imageLevel == if e.attempts >= 5 then Some(0) else None)
      && (x.mode == Specs ==> e.imageLevel == None)
      && e.keywords <= x.keywords
      && (if x.mode == Keywords then |e.keywords| == |x.keywords| || |e.keywords| == e.attempts + 3 < |x.keywords|
          else e.keywords == [])
      && (e.yearRange.Some? <==> x.mode == Specs && x.answer.year.Some?)
      && (e.yearRange.Some? ==> forall year :: e.yearRange.value.min <= year <= e.yearRange.value.max <==>
            Possible(year, x.guesses, x.answer.year.value, x.thisYear))
      && (e.revealed.Some? ==> x.hintAt.Some?)
  {
    if x.mode == Specs && x.answer.year.Some? {
      forall year ensures var range := RangeHint(x).value;
        range.min <= year <= range.max <==> Possible(year, x.guesses, x.answer.year.value, x.thisYear)
      {
        YearRangeExact(x.guesses, x.answer.year.value, x.thisYear, year);
      }
    }
  }

  /**
   Feedback in terms of the games: who was guessed, shared franchises, and exactly the shared
   genres and platforms. A skip says nothing. There is one entry per guess.
   */
  lemma FeedbackMeaning(x: Input, i: nat)
    requires i < |x.guesses| && Evaluate(x).Ok?
    ensures |Evaluate(x).value.feedback| == |x.guesses|
    ensures x.guesses[i].None? ==> Evaluate(x).value.feedback[i] == Feedback(None, None, Skipped, [], [], map[], None)
    ensures x.guesses[i].Some? ==>
      var g, f := x.guesses[i].value, Evaluate(x).value.feedback[i];
      && f.gameId == Some(g.id) && f.name == Some(g.name) && f.result != Skipped
      && (f.result == Correct <==> g.id == x.answer.id)
      && (f.result == SameFranchise <==> g.id != x.answer.id && Ids(g.franchises) * Ids(x.answer.franchises) != {})
      && IsShared(g.genres, x.answer.genres, f.commonGenres)
      && IsShared(g.platforms, x.answer.platforms, f.commonPlatforms)
      && (x.mode != Specs ==> f.columns == map[] && f.year == None)
  {
    if x.guesses[i].None? { return; }
    var g := x.guesses[i].value;
    SharesSome(g.franchises, x.answer.franchises);
    CommonIsShared(g.genres, x.answer.genres);
    CommonIsShared(g.platforms, x.answer.platforms);
  }

  /** Lists as the service builds them: every id once. */
  predicate CleanLists(game: GameData) {
    && UniqueIds(game.genres) && UniqueIds(game.platforms) && UniqueIds(game.companies)
    && UniqueIds(game.franchises) && UniqueIds(game.themes) && UniqueIds(game.gameModes)
    && UniqueIds(game.perspectives) && UniqueIds(game.gameEngines)
  }

  /** The verdict compares the two id sets, and the values name the guess's items in order, if there are any. */
  predicate Compares(f: Feedback, column: Column, guess: seq<Named>, answer: seq<Named>, named: bool) {
    && column in f.columns
    && (f.columns[column].verdict == Full <==> Ids(guess) == Ids(answer))
    && (f.columns[column].verdict == Partial <==> Ids(guess) != Ids(answer) && Ids(guess) * Ids(answer) != {})
    && (if named then AreNames(f.columns[column].values, guess) else f.columns[column].values == [])
  }

  predicate AreNames(values: seq<string>, items: seq<Named>) {
    |values| == |items| && forall i :: 0 <= i < |items| ==> values[i] == items[i].name
  }

  /** In specs mode a guess is compared with the answer in every column, the franchises without naming them. */
  lemma ColumnsMeaning(x: Input, i: nat, column: Column)
    requires i < |x.guesses| && x.guesses[i].Some? && Evaluate(x).Ok? && x.mode == Specs
    requires CleanLists(x.guesses[i].value) && CleanLists(x.answer)
    ensures var g, a, f := x.guesses[i].value, x.answer, Evaluate(x).value.feedback[i];
      match column
      case ReleaseYear => true
      case Genres => Compares(f, column, g.genres, a.genres, true)
      case Platforms => Compares(f, column, g.platforms, a.platforms, true)
      case Companies => Compares(f, column, g.companies, a.companies, true)
      case Franchise => Compares(f, column, g.franchises, a.franchises, false)
      case Themes => Compares(f, column, g.themes, a.themes, true)
      case GameModes => Compares(f, column, g.gameModes, a.gameModes, true)
      case Perspectives => Compares(f, column, g.perspectives, a.perspectives, true)
      case GameEngines => Compares(f, column, g.gameEngines, a.gameEngines, true)
  {
    if column != ReleaseYear { ColumnMeaning(x.guesses[i].value, x.answer, column); }
  }

  lemma ColumnMeaning(guess: GameData, answer: GameData, column: Column)
    requires column != ReleaseYear && UniqueIds(List(guess, column)) && UniqueIds(List(answer, column))
    ensures Compares(FeedbackFor(Specs, Some(guess), answer), column, List(guess, column), List(answer, column),
                     column != Franchise)
  {
    assert column in REVEAL_ORDER;
    SetMatchMeaning(List(guess, column), List(answer, column));
  }

  /** And its year column shows the year, the direction and how close it is, when both years are known. */
  lemma YearMeaning(x: Input, i: nat)
    requires i < |x.guesses| && x.guesses[i].Some? && Evaluate(x).Ok? && x.mode == Specs
    ensures var g, a, f := x.guesses[i].value.year, x.answer.year, Evaluate(x).value.feedback[i];
      && f.year.Some? && f.year.value.value == g
      && (f.year.value.direction == Some(Higher) <==> g.Some? && a.Some? && g.value < a.value)
      && (f.year.value.direction == Some(Lower) <==> g.Some? && a.Some? && a.value < g.value)
      && (f.year.value.verdict == Full <==> g.Some? && g == a)
      && (f.year.value.verdict == Partial <==> g.Some? && a.Some? && g != a && g.value - 5 <= a.value <= g.value + 5)
      && ReleaseYear in f.columns && f.columns[ReleaseYear].verdict == f.year.value.verdict
  {
    YearColumnMeaning(x.guesses[i].value.year, x.answer.year);
    assert ReleaseYear in REVEAL_ORDER;
  }

  /** The names are those of the guess's items whose id the answer has, and no others. */
  ghost predicate IsShared(guess: seq<Named>, answer: seq<Named>, names: seq<string>) {
    && (forall i :: 0 <= i < |guess| && guess[i].id in Ids(answer) ==> guess[i].name in names)
    && (forall name :: name in names ==>
         exists i :: 0 <= i < |guess| && guess[i].id in Ids(answer) && guess[i].name == name)
  }

  lemma {:induction false} CommonIsShared(guess: seq<Named>, answer: seq<Named>)
    ensures IsShared(guess, answer, Common(guess, answer))
  {
    if guess != [] {
      var init, last := guess[..|guess| - 1], guess[|guess| - 1];
      CommonIsShared(init, answer);
      assert forall i :: 0 <= i < |init| ==> init[i] == guess[i];
      forall name | name in Common(guess, answer)
        ensures exists i :: 0 <= i < |guess| && guess[i].id in Ids(answer) && guess[i].name == name
      {
        if name in Common(init, answer) {
          var i :| 0 <= i < |init| && init[i].id in Ids(answer) && init[i].name == name;
          assert guess[i].name == name;
        }
      }
    }
  }

  /** Column i is the first unmatched one. */
  ghost predicate IsFirstUnmatched(feedback: seq<Feedback>, columns: seq<Column>, i: int) {
    && 0 <= i < |columns| && !Matched(feedback, columns[i])
    && forall j :: 0 <= j < i ==> Matched(feedback, columns[j])
  }

  lemma SharesSome(guess: seq<Named>, answer: seq<Named>)
    ensures Common(guess, answer) != [] <==> Ids(guess) * Ids(answer) != {}
  {
    var names := Common(guess, answer);
    CommonIsShared(guess, answer);
    if names != [] {
      assert names[0] in names;
      var i :| 0 <= i < |guess| && guess[i].id in Ids(answer) && guess[i].name == names[0];
      assert guess[i].id in Ids(guess) * Ids(answer);
    }
    if Ids(guess) * Ids(answer) != {} {
      var id := Member(Ids(guess) * Ids(answer));
      var i :| 0 <= i < |guess| && guess[i].id == id;
      assert guess[i].name in names;
    }
  }

  /** Two games have the same items in the column, or the same known year. */
  predicate Agree(column: Column, a: GameData, b: GameData) {
    match column
    case ReleaseYear => a.year.Some? && a.year == b.year
    case Genres => Ids(a.genres) == Ids(b.genres)
    case Platforms => Ids(a.platforms) == Ids(b.platforms)
    case Companies => Ids(a.companies) == Ids(b.companies)
    case Franchise => Ids(a.franchises) == Ids(b.franchises)
    case Themes => Ids(a.themes) == Ids(b.themes)
    case GameModes => Ids(a.gameModes) == Ids(b.gameModes)
    case Perspectives => Ids(a.perspectives) == Ids(b.perspectives)
    case GameEngines => Ids(a.gameEngines) == Ids(b.gameEngines)
  }

  /** One of the first n guesses got the column right. */
  predicate Found(x: Input, n: int, column: Column)
    requires n <= |x.guesses|
  {
    exists i :: 0 <= i < n && x.guesses[i].Some? && Agree(column, x.guesses[i].value, x.answer)
  }

  /** The answer's own entry in the column. */
  predicate Shows(revealed: Reveal, column: Column, a: GameData) {
    && revealed.column == column
    && match column
       case ReleaseYear => revealed.year == a.year && revealed.values == []
       case Genres => AreNames(revealed.values, a.genres)
       case Platforms => AreNames(revealed.values, a.platforms)
       case Companies => AreNames(revealed.values, a.companies)
       case Franchise => AreNames(revealed.values, a.franchises)
       case Themes => AreNames(revealed.values, a.themes)
       case GameModes => AreNames(revealed.values, a.gameModes)
       case Perspectives => AreNames(revealed.values, a.perspectives)
       case GameEngines => AreNames(revealed.values, a.gameEngines)
  }

  /**
   The hint reveals the answer in the first column, in priority order, that no guess before it got
   right; nothing when every column was.
   */
  lemma RevealMeaning(x: Input)
    requires Evaluate(x).Ok? && x.hintAt.Some? && AllClean(x)
    ensures var revealed := Evaluate(x).value.revealed;
      var order := [ReleaseYear, Genres, Platforms, Companies, Franchise, Themes, GameModes, Perspectives, GameEngines];
      if revealed == None then forall k :: 0 <= k < |order| ==> Found(x, x.hintAt.value, order[k])
      else exists k :: IsFirstMissing(x, x.hintAt.value, order, k) && Shows(revealed.value, order[k], x.answer)
  {
    var order := [ReleaseYear, Genres, Platforms, Companies, Franchise, Themes, GameModes, Perspectives, GameEngines];
    assert order == REVEAL_ORDER;
    UnmatchedIsMissing(x, order);
    var column := FirstUnmatched(AllFeedback(x.mode, x.guesses, x.answer)[..x.hintAt.value], order);
    if column.Some? {
      var k :| IsFirstMissing(x, x.hintAt.value, order, k) && column.value == order[k];
      RevealShows(order[k], x.answer);
    }
  }

  lemma UnmatchedIsMissing(x: Input, order: seq<Column>)
    requires Evaluate(x).Ok? && x.hintAt.Some? && AllClean(x)
    ensures var column := FirstUnmatched(AllFeedback(x.mode, x.guesses, x.answer)[..x.hintAt.value], order);
      if column.None? then forall k :: 0 <= k < |order| ==> Found(x, x.hintAt.value, order[k])
      else exists k :: IsFirstMissing(x, x.hintAt.value, order, k) && column.value == order[k]
  {
    var before := AllFeedback(x.mode, x.guesses, x.answer)[..x.hintAt.value];
    FirstUnmatchedIsFirst(before, order);
    forall column ensures Matched(before, column) <==> Found(x, x.hintAt.value, column) {
      MatchedIsFound(x, column);
    }
    if FirstUnmatched(before, order).Some? {
      var k :| IsFirstUnmatched(before, order, k) && FirstUnmatched(before, order).value == order[k];
      assert IsFirstMissing(x, x.hintAt.value, order, k);
    }
  }

  predicate AllClean(x: Input) {
    CleanLists(x.answer) && forall i :: 0 <= i < |x.guesses| && x.guesses[i].Some? ==> CleanLists(x.guesses[i].value)
  }

  /** No column before the k-th is missing, and the k-th is. */
  predicate IsFirstMissing(x: Input, n: int, order: seq<Column>, k: int)
    requires n <= |x.guesses|
  {
    0 <= k < |order| && !Found(x, n, order[k]) && forall j :: 0 <= j < k ==> Found(x, n, order[j])
  }

  lemma RevealShows(column: Column, answer: GameData)
    ensures Shows(RevealOf(column, answer), column, answer)
  {
  }

  lemma MatchedIsFound(x: Input, column: Column)
    requires Evaluate(x).Ok? && x.hintAt.Some? && AllClean(x)
    ensures Matched(AllFeedback(x.mode, x.guesses, x.answer)[..x.hintAt.value], column)
            <==> Found(x, x.hintAt.value, column)
  {
    var before := AllFeedback(x.mode, x.guesses, x.answer)[..x.hintAt.value];
    forall i | 0 <= i < x.hintAt.value
      ensures (column in before[i].columns && before[i].columns[column].verdict == Full)
              <==> x.guesses[i].Some? && Agree(column, x.guesses[i].value, x.answer)
    {
      if x.guesses[i].Some? { FullIsAgreement(x.guesses[i].value, x.answer, column); }
    }
  }

  lemma FullIsAgreement(guess: GameData, answer: GameData, column: Column)
    requires CleanLists(guess) && CleanLists(answer)
    ensures var columns := FeedbackFor(Specs, Some(guess), answer).columns;
      column in columns && (columns[column].verdict == Full <==> Agree(column, guess, answer))
  {
    if column == ReleaseYear {
      YearColumnMeaning(guess.year, answer.year);
      assert column in REVEAL_ORDER;
    } else {
      CleanList(guess, column);
      CleanList(answer, column);
      ColumnMeaning(guess, answer, column);
      AgreementIsSameIds(column, guess, answer);
    }
  }

  lemma CleanList(game: GameData, column: Column)
    requires CleanLists(game)
    ensures UniqueIds(List(game, column))
  {
  }

  lemma AgreementIsSameIds(column: Column, a: GameData, b: GameData)
    requires column != ReleaseYear
    ensures Agree(column, a, b) <==> Ids(List(a, column)) == Ids(List(b, column))
  {
  }

  lemma {:induction false} FirstUnmatchedIsFirst(feedback: seq<Feedback>, columns: seq<Column>)
    ensures var column := FirstUnmatched(feedback, columns);
      if column.None? then forall c :: c in columns ==> Matched(feedback, c)
      else exists i :: IsFirstUnmatched(feedback, columns, i) && column.value == columns[i]
  {
    if columns != [] {
      if !Matched(feedback, columns[0]) {
        assert IsFirstUnmatched(feedback, columns, 0);
      } else {
        FirstUnmatchedIsFirst(feedback, columns[1..]);
        assert columns == [columns[0]] + columns[1..];
        if FirstUnmatched(feedback, columns[1..]).Some? {
          var i :| IsFirstUnmatched(feedback, columns[1..], i)
              && FirstUnmatched(feedback, columns[1..]).value == columns[1..][i];
          assert forall j :: 0 < j < |columns| ==> columns[j] == columns[1..][j - 1];
          assert IsFirstUnmatched(feedback, columns, i + 1);
        }
      }
    }
  }

  /**
   `later` adds guesses to `earlier`; a hint is kept, and a new one is not placed before the
   guesses already there.
   */
  predicate Extends(earlier: Input, later: Input) {
    && later == earlier.(guesses := later.guesses, hintAt := later.hintAt)
    && earlier.guesses <= later.guesses
    && (if earlier.hintAt.Some? then later.hintAt == earlier.hintAt
        else later.hintAt.Some? ==> later.hintAt.value >= |earlier.guesses|)
  }

  /** A stage of a play: something it extends, with the hint only once the guesses before it are there. */
  predicate StageOf(earlier: Input, later: Input) {
    Extends(earlier, later) && (earlier.hintAt.Some? ==> earlier.hintAt.value <= |earlier.guesses|)
  }

  /** The one exception: asking for the hint after the correct guess. */
  predicate HintAfterWin(earlier: Input, later: Input) {
    && earlier.guesses == later.guesses && earlier.hintAt.None? && later.hintAt.Some?
    && |later.guesses| > 0 && IsCorrect(later.guesses[|later.guesses| - 1], later.answer.id)
  }

  lemma FirstCorrectPrefix(earlier: seq<Guess>, later: seq<Guess>, answer: GameId)
    requires earlier <= later
    ensures FirstCorrect(later, answer) == -1 ==> FirstCorrect(earlier, answer) == -1
    ensures 0 <= FirstCorrect(later, answer) < |earlier| ==>
        FirstCorrect(earlier, answer) == FirstCorrect(later, answer)
    ensures FirstCorrect(later, answer) >= |earlier| ==> FirstCorrect(earlier, answer) == -1
  {
    assert forall i :: 0 <= i < |earlier| ==> earlier[i] == later[i];
  }

  lemma EarlierAttempts(earlier: Input, later: Input)
    requires Extends(earlier, later)
    ensures Attempts(earlier) <= Attempts(later)
    ensures earlier != later ==> Attempts(earlier) < Attempts(later)
  {
    if |earlier.guesses| == |later.guesses| {
      assert earlier.guesses == later.guesses;
      assert earlier.hintAt == later.hintAt ==> earlier == later;
    }
  }

  lemma EarlierNotRefused(earlier: Input, later: Input)
    requires StageOf(earlier, later) && Refused(later).None?
    ensures Refused(earlier).None?
  {
    EarlierAttempts(earlier, later);
    FirstCorrectPrefix(earlier.guesses, later.guesses, later.answer.id);
  }

  /**
   Every earlier stage of a valid play is itself valid, and it is in progress exactly unless the
   only thing still to come is a hint after the winning guess.
   */
  lemma EarlierStageInProgress(earlier: Input, later: Input)
    requires StageOf(earlier, later) && earlier != later && Evaluate(later).Ok?
    ensures Evaluate(earlier).Ok?
    ensures Evaluate(earlier).value.status == InProgress <==> !HintAfterWin(earlier, later)
    ensures HintAfterWin(earlier, later) ==> Evaluate(earlier).value.status == Won
  {
    EarlierAttempts(earlier, later);
    EarlierNotRefused(earlier, later);
    EarlierStatus(earlier, later);
  }

  /** An instance of the exception: four skips and the answer, and then the hint. */
  lemma HintAfterWinExample(answer: GameData, year: int) returns (earlier: Input, later: Input)
    ensures StageOf(earlier, later) && HintAfterWin(earlier, later) && Evaluate(earlier).Ok? && Evaluate(later).Ok?
    ensures Evaluate(earlier).value.status == Won
        && Evaluate(later).value.attempts == Evaluate(earlier).value.attempts + 1
  {
    earlier := Input(Specs, answer, [None, None, None, None, Some(answer)], None, [], year);
    later := earlier.(hintAt := Some(5));
    assert forall i :: 0 <= i < 4 ==> !IsCorrect(earlier.guesses[i], answer.id);
    assert IsCorrect(earlier.guesses[4], answer.id);
    OutcomeMeaning(earlier);
    OutcomeMeaning(later);
  }

  lemma EarlierStatus(earlier: Input, later: Input)
    requires Extends(earlier, later) && Refused(later).None? && Attempts(earlier) < Attempts(later)
    ensures StatusOf(earlier) == if HintAfterWin(earlier, later) then Won else InProgress
  {
    FirstCorrectPrefix(earlier.guesses, later.guesses, later.answer.id);
    if HintAfterWin(earlier, later) {
    } else if |earlier.guesses| == |later.guesses| {
      assert earlier.guesses == later.guesses;
    }
  }

  lemma RevealStays(earlier: Input, later: Input)
    requires Extends(earlier, later) && earlier.hintAt.Some? && 0 <= earlier.hintAt.value <= |earlier.guesses|
    ensures RevealHint(earlier) == RevealHint(later)
  {
    var h := earlier.hintAt.value;
    FeedbackGrows(earlier, later);
    assert AllFeedback(earlier.mode, earlier.guesses, earlier.answer)[..h]
        == AllFeedback(later.mode, later.guesses, later.answer)[..h];
  }

  lemma FeedbackGrows(earlier: Input, later: Input)
    requires Extends(earlier, later)
    ensures AllFeedback(earlier.mode, earlier.guesses, earlier.answer)
         <= AllFeedback(later.mode, later.guesses, later.answer)
  {
    assert forall i :: 0 <= i < |earlier.guesses| ==> earlier.guesses[i] == later.guesses[i];
  }

  lemma RangeHintShrinks(earlier: Input, later: Input)
    requires Extends(earlier, later) && RangeHint(earlier).Some?
    ensures RangeHint(later).Some?
    ensures RangeHint(earlier).value.min <= RangeHint(later).value.min <= later.answer.year.value
    ensures later.answer.year.value <= RangeHint(later).value.max <= RangeHint(earlier).value.max
  {
    var more := later.guesses[|earlier.guesses|..];
    assert later.guesses == earlier.guesses + more;
    YearRangeShrinks(earlier.guesses, more, later.answer.year.value, later.thisYear);
    YearRangeExact(later.guesses, later.answer.year.value, later.thisYear, later.answer.year.value);
  }

  /**
   Extending a play only adds: feedback and keywords grow, images sharpen, the year range shrinks,
   the reveal stays.
   */
  lemma HintsOnlyGrow(earlier: Input, later: Input)
    requires Extends(earlier, later) && Evaluate(earlier).Ok? && Evaluate(later).Ok?
    ensures var a, b := Evaluate(earlier).value, Evaluate(later).value;
      && a.attempts <= b.attempts && a.feedback <= b.feedback && a.keywords <= b.keywords
      && (a.imageLevel.Some? ==> b.imageLevel.Some? && a.imageLevel.value <= b.imageLevel.value)
      && (a.yearRange.Some? ==>
            (&& b.yearRange.Some? && a.yearRange.value.min <= b.yearRange.value.min <= later.answer.year.value
             && later.answer.year.value <= b.yearRange.value.max <= a.yearRange.value.max))
      && (earlier.hintAt.Some? ==> a.revealed == b.revealed)
  {
    EarlierAttempts(earlier, later);
    FeedbackGrows(earlier, later);
    if RangeHint(earlier).Some? { RangeHintShrinks(earlier, later); }
    if earlier.hintAt.Some? { RevealStays(earlier, later); }
  }
}
