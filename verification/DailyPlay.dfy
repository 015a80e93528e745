/**
 The daily service around the evaluator: plays are stored as append-only progress per user and
 puzzle, and guest results can be imported. A play is a read and a later upsert.
 */
module DailyPlay {
  import opened Prelude
  import opened DailyEvaluator

  type UserId = int
  type PuzzleId = int

  datatype RawItem = RawItem(id: int, name: Option<string>)

  datatype Involved = Involved(developer: bool, publisher: bool, company: RawItem)

  datatype RawGame = RawGame(
    name: string,
    slug: string,
    year: Option<int>,
    coverUrl: Option<string>,
    franchises: seq<RawItem>,
    genres: seq<RawItem>,
    platforms: seq<RawItem>,
    themes: seq<RawItem>,
    gameModes: seq<RawItem>,
    perspectives: seq<RawItem>,
    gameEngines: seq<RawItem>,
    involved: seq<Involved>)

  /** `keywords` are the puzzle's keyword names, in order. */
  datatype Puzzle = Puzzle(mode: Mode, game: GameId, date: int, keywords: seq<string>)

  datatype World = World(games: map<GameId, RawGame>, puzzles: map<PuzzleId, Puzzle>)

  /** Guessed game ids in order, None for a skip, and where the hint was used. */
  datatype Attempt = Attempt(guesses: seq<Option<GameId>>, hintAt: Option<int>)

  datatype Key = Key(user: UserId, puzzle: PuzzleId)

  datatype Saved = Saved(attempt: Attempt, status: Status, attempts: int)

  datatype Call = Call(user: Option<UserId>, puzzle: PuzzleId, attempt: Attempt, today: int, thisYear: int)

  datatype PlayError = NotFound | BadRequest

  datatype Response = Response(evaluation: Evaluation, hintAt: Option<int>)

  datatype Played = Played(reply: Result<Response, PlayError>, results: map<Key, Saved>)

  // ----- named lists -----

  function ToNamed(item: RawItem): Named {
    Named(item.id, if item.name.Some? then item.name.value else "")
  }

  /** Map.set: a known id keeps its place and takes the new value. */
  function Insert(list: seq<Named>, item: Named): seq<Named> {
    if list == [] then [item]
    else if list[0].id == item.id then [item] + list[1..]
    else [list[0]] + Insert(list[1..], item)
  }

  function NamedList(items: seq<RawItem>): seq<Named> {
    if items == [] then [] else Insert(NamedList(items[..|items| - 1]), ToNamed(items[|items| - 1]))
  }

  lemma IdsOfCons(head: Named, tail: seq<Named>)
    ensures Ids([head] + tail) == {head.id} + Ids(tail)
  {
    var list := [head] + tail;
    assert list[0] == head;
    assert forall i :: 0 <= i < |tail| ==> list[i + 1] == tail[i];
    forall x | x in {head.id} + Ids(tail) ensures x in Ids(list) {
      if x != head.id {
        var i :| 0 <= i < |tail| && tail[i].id == x;
        assert list[i + 1].id == x;
      }
    }
  }

  lemma {:induction false} InsertKeepsUnique(list: seq<Named>, item: Named)
    requires UniqueIds(list)
    ensures UniqueIds(Insert(list, item)) && Ids(Insert(list, item)) == Ids(list) + {item.id}
  {
    if list == [] {
      IdsOfCons(item, []);
      assert [item] + [] == [item];
    } else if list[0].id == item.id {
      assert list == [list[0]] + list[1..];
      var after := [item] + list[1..];
      assert forall i :: 0 <= i < |list| ==> after[i].id == list[i].id;
      assert Ids(after) == Ids(list);
    } else {
      InsertKeepsUnique(list[1..], item);
      var tail := Insert(list[1..], item);
      IdsOfCons(list[0], list[1..]);
      assert list == [list[0]] + list[1..];
      IdsOfCons(list[0], tail);
      assert list[0].id !in Ids(list[1..]);
      forall j | 0 <= j < |tail| ensures tail[j].id != list[0].id { assert tail[j].id in Ids(tail); }
    }
  }

  function RawIds(items: seq<RawItem>): set<int> {
    set i | 0 <= i < |items| :: items[i].id
  }

  /** Every list the evaluator sees has unique ids, whatever duplicates the joins produced. */
  lemma {:induction false} NamedListIsUnique(items: seq<RawItem>)
    ensures UniqueIds(NamedList(items))
    ensures Ids(NamedList(items)) == RawIds(items)
  {
    if items != [] {
      var init, last := items[..|items| - 1], items[|items| - 1];
      NamedListIsUnique(init);
      InsertKeepsUnique(NamedList(init), ToNamed(last));
      assert items == init + [last];
    }
  }

  /** A new id goes to the end. */
  lemma {:induction false} InsertNew(list: seq<Named>, item: Named)
    requires forall i :: 0 <= i < |list| ==> list[i].id != item.id
    ensures Insert(list, item) == list + [item]
  {
    if list != [] {
      InsertNew(list[1..], item);
      assert list == [list[0]] + list[1..];
    }
  }

  /** A known id is overwritten where it stands. */
  lemma {:induction false} InsertKnown(list: seq<Named>, item: Named, k: nat)
    requires k < |list| && list[k].id == item.id && forall i :: 0 <= i < k ==> list[i].id != item.id
    ensures Insert(list, item) == list[k := item]
  {
    if k == 0 {
      assert [item] + list[1..] == list[0 := item];
    } else {
      InsertKnown(list[1..], item, k - 1);
      assert [list[0]] + list[1..][k - 1 := item] == list[k := item];
    }
  }

  /** The name shown for an item is the one it has where it occurs last, empty if it has none. */
  predicate NamedLast(items: seq<RawItem>, shown: Named) {
    exists k :: 0 <= k < |items| && NamedAt(items, shown, k)
  }

  predicate NamedAt(items: seq<RawItem>, shown: Named, k: int) {
    && 0 <= k < |items| && items[k].id == shown.id && (forall m :: k < m < |items| ==> items[m].id != shown.id)
    && shown.name == (if items[k].name.Some? then items[k].name.value else "")
  }

  /** After an insertion an entry is the new one, or an old one with another id. */
  lemma InsertedOrKept(list: seq<Named>, item: Named, j: nat)
    requires UniqueIds(list) && j < |Insert(list, item)|
    ensures Insert(list, item)[j] == item || (j < |list| && Insert(list, item)[j] == list[j] && list[j].id != item.id)
  {
    if k :| 0 <= k < |list| && list[k].id == item.id {
      InsertKnown(list, item, k);
    } else {
      InsertNew(list, item);
    }
  }

  lemma {:induction false} NamedListNames(items: seq<RawItem>, j: nat)
    requires j < |NamedList(items)|
    ensures NamedLast(items, NamedList(items)[j])
  {
    if items != [] {
      var init, last := items[..|items| - 1], items[|items| - 1];
      NamedListIsUnique(init);
      InsertedOrKept(NamedList(init), ToNamed(last), j);
      var shown := NamedList(items)[j];
      if shown == ToNamed(last) {
        assert NamedAt(items, shown, |items| - 1);
      } else {
        NamedListNames(init, j);
        var k :| NamedAt(init, shown, k);
        StillNamedAt(init, last, shown, k);
        assert items == init + [last];
      }
    }
  }

  lemma StillNamedAt(init: seq<RawItem>, last: RawItem, shown: Named, k: int)
    requires NamedAt(init, shown, k) && last.id != shown.id
    ensures NamedLast(init + [last], shown)
  {
    assert NamedAt(init + [last], shown, k);
  }

  function Companies(involved: seq<Involved>): seq<RawItem> {
    if involved == [] then []
    else
      var rest, last := Companies(involved[..|involved| - 1]), involved[|involved| - 1];
      if last.developer || last.publisher then rest + [last.company] else rest
  }

  function ToGameData(id: GameId, game: RawGame): GameData {
    GameData(id, game.name, game.slug, game.year, game.coverUrl,
             NamedList(game.franchises), NamedList(game.genres), NamedList(game.platforms), NamedList(game.themes),
             NamedList(game.gameModes), NamedList(game.perspectives), NamedList(game.gameEngines),
             NamedList(Companies(game.involved)))
  }

  /** The companies credited with developing or publishing the game. */
  function Credited(involved: seq<Involved>): set<int> {
    set k | 0 <= k < |involved| && (involved[k].developer || involved[k].publisher) :: involved[k].company.id
  }

  lemma {:induction false} CompaniesMeaning(involved: seq<Involved>)
    ensures RawIds(Companies(involved)) == Credited(involved)
  {
    if involved != [] {
      var init, last := involved[..|involved| - 1], involved[|involved| - 1];
      CompaniesMeaning(init);
      CreditedOneMore(init, last);
      RawIdsOneMore(Companies(init), last.company);
      assert involved == init + [last];
    }
  }

  lemma CreditedOneMore(init: seq<Involved>, last: Involved)
    ensures Credited(init + [last])
         == Credited(init) + (if last.developer || last.publisher then {last.company.id} else {})
  {
    var all := init + [last];
    assert all[|init|] == last && forall k :: 0 <= k < |init| ==> all[k] == init[k];
    forall id | id in Credited(init) ensures id in Credited(all) {
      var k :| 0 <= k < |init| && (init[k].developer || init[k].publisher) && init[k].company.id == id;
      assert all[k].company.id == id;
    }
  }

  lemma RawIdsOneMore(init: seq<RawItem>, last: RawItem)
    ensures RawIds(init + [last]) == RawIds(init) + {last.id}
  {
    var all := init + [last];
    assert all[|init|] == last && forall k :: 0 <= k < |init| ==> all[k] == init[k];
    forall id | id in RawIds(init) ensures id in RawIds(all) {
      var k :| 0 <= k < |init| && init[k].id == id;
      assert all[k].id == id;
    }
  }

  /** The list has each id of the rows once and no other, under its last name. */
  ghost predicate Lists(items: seq<RawItem>, shown: seq<Named>) {
    && UniqueIds(shown) && Ids(shown) == RawIds(items)
    && forall j :: 0 <= j < |shown| ==> NamedLast(items, shown[j])
  }

  lemma NamedListLists(items: seq<RawItem>)
    ensures Lists(items, NamedList(items))
  {
    NamedListIsUnique(items);
    forall j | 0 <= j < |NamedList(items)| ensures NamedLast(items, NamedList(items)[j]) {
      NamedListNames(items, j);
    }
  }

  /** What the evaluator is given of a stored game: its own data, each joined list cleaned of duplicates. */
  lemma GameDataMeaning(id: GameId, game: RawGame)
    ensures var g := ToGameData(id, game);
      && g.id == id && g.name == game.name && g.slug == game.slug && g.year == game.year && g.coverUrl == game.coverUrl
      && Lists(game.franchises, g.franchises) && Lists(game.genres, g.genres) && Lists(game.platforms, g.platforms)
      && Lists(game.themes, g.themes) && Lists(game.gameModes, g.gameModes) && Lists(game.perspectives, g.perspectives)
      && Lists(game.gameEngines, g.gameEngines)
      && Ids(g.companies) == Credited(game.involved) && CleanLists(g)
  {
    NamedListLists(game.franchises);
    NamedListLists(game.genres);
    NamedListLists(game.platforms);
    NamedListLists(game.themes);
    NamedListLists(game.gameModes);
    NamedListLists(game.perspectives);
    NamedListLists(game.gameEngines);
    NamedListIsUnique(Companies(game.involved));
    CompaniesMeaning(game.involved);
  }

  /** So every call is evaluated on clean lists, and what the evaluator says about columns applies to it. */
  lemma InputIsClean(w: World, p: Puzzle, a: Attempt, thisYear: int)
    requires Evaluable(w, p, a)
    ensures AllClean(InputOf(w, p, a, thisYear))
  {
    GameDataMeaning(p.game, w.games[p.game]);
    forall i | 0 <= i < |a.guesses| && a.guesses[i].Some?
      ensures CleanLists(InputOf(w, p, a, thisYear).guesses[i].value)
    {
      GameDataMeaning(a.guesses[i].value, w.games[a.guesses[i].value]);
    }
  }

  /** What is evaluated: the puzzle's answer and mode, and the guessed games in their places. */
  lemma InputMeaning(w: World, p: Puzzle, a: Attempt, thisYear: int)
    ensures Evaluable(w, p, a) <==>
      p.game in w.games && forall i :: 0 <= i < |a.guesses| && a.guesses[i].Some? ==> a.guesses[i].value in w.games
    ensures Evaluable(w, p, a) ==>
      var x := InputOf(w, p, a, thisYear);
      && x.mode == p.mode && x.answer.id == p.game && x.keywords == p.keywords && x.hintAt == a.hintAt
      && x.thisYear == thisYear && |x.guesses| == |a.guesses|
      && forall i :: 0 <= i < |a.guesses| ==>
           && (x.guesses[i].Some? <==> a.guesses[i].Some?)
           && (x.guesses[i].Some? ==> x.guesses[i].value.id == a.guesses[i].value)
  {
  }

  /**
   For stored games the columns mean what they show: a full match is equality of the id sets, a
   partial match an overlap short of it.
   */
  lemma ColumnsMeanSets(a: GameId, guess: RawGame, b: GameId, answer: RawGame, column: Column)
    requires column != ReleaseYear
    ensures var g, w := List(ToGameData(a, guess), column), List(ToGameData(b, answer), column);
      var shown := ColumnMatch(ToGameData(a, guess), ToGameData(b, answer), column);
      && (shown == Full <==> Ids(g) == Ids(w))
      && (shown == Partial <==> Ids(g) != Ids(w) && Ids(g) * Ids(w) != {})
  {
    ListIsUnique(a, guess, column);
    ListIsUnique(b, answer, column);
    SetMatchMeaning(List(ToGameData(a, guess), column), List(ToGameData(b, answer), column));
  }

  lemma ListIsUnique(id: GameId, game: RawGame, column: Column)
    ensures UniqueIds(List(ToGameData(id, game), column))
  {
    NamedListIsUnique(match column
      case ReleaseYear => []
      case Genres => game.genres
      case Platforms => game.platforms
      case Companies => Companies(game.involved)
      case Franchise => game.franchises
      case Themes => game.themes
      case GameModes => game.gameModes
      case Perspectives => game.perspectives
      case GameEngines => game.gameEngines);
  }

  // ----- evaluating an attempt -----

  predicate Known(games: map<GameId, RawGame>, guesses: seq<Option<GameId>>) {
    forall i :: 0 <= i < |guesses| ==> guesses[i].Some? ==> guesses[i].value in games
  }

  function Guesses(games: map<GameId, RawGame>, guesses: seq<Option<GameId>>): seq<Guess>
    requires Known(games, guesses)
  {
    seq(|guesses|, i requires 0 <= i < |guesses| =>
      if guesses[i].None? then None else Some(ToGameData(guesses[i].value, games[guesses[i].value])))
  }

  predicate Evaluable(w: World, p: Puzzle, a: Attempt) {
    p.game in w.games && Known(w.games, a.guesses)
  }

  function InputOf(w: World, p: Puzzle, a: Attempt, thisYear: int): Input
    requires Evaluable(w, p, a)
  {
    Input(p.mode, ToGameData(p.game, w.games[p.game]), Guesses(w.games, a.guesses), a.hintAt, p.keywords, thisYear)
  }

  function EvaluateWith(w: World, p: Puzzle, a: Attempt, thisYear: int): Result<Evaluation, PlayError> {
    if p.game !in w.games then Err(NotFound)
    else if !Known(w.games, a.guesses) then Err(BadRequest)
    else
      var evaluation := Evaluate(InputOf(w, p, a, thisYear));
      if evaluation.Ok? then Ok(evaluation.value) else Err(BadRequest)
  }

  /** The append-only guard: saved guesses stay in place, a saved hint is fixed, a new one is not before them. */
  predicate Appends(saved: Attempt, a: Attempt) {
    && saved.guesses <= a.guesses
    && (if saved.hintAt.Some? then a.hintAt == saved.hintAt
        else a.hintAt.Some? ==> a.hintAt.value >= |saved.guesses|)
  }

  function ToSaved(a: Attempt, e: Evaluation): Saved {
    Saved(a, e.status, e.attempts)
  }

  function Reply(evaluation: Result<Evaluation, PlayError>, hintAt: Option<int>): Result<Response, PlayError> {
    if evaluation.Ok? then Ok(Response(evaluation.value, hintAt)) else Err(evaluation.error)
  }

  function Lookup(results: map<Key, Saved>, k: Key): Option<Saved> {
    if k in results then Some(results[k]) else None
  }

  /** The saved row of the caller; guests have none. */
  function SavedFor(results: map<Key, Saved>, c: Call): Option<Saved> {
    if c.user.Some? then Lookup(results, Key(c.user.value, c.puzzle)) else None
  }

  /** An upsert still to be made: the row `play` read, and the row it will store. */
  datatype Pending = Pending(key: Key, read: Option<Saved>, row: Saved)

  datatype Decision = Decision(reply: Result<Response, PlayError>, upsert: Option<Pending>)

  /** Everything `play` does before its upsert. */
  function ReadPlay(w: World, results: map<Key, Saved>, c: Call): Decision {
    if c.puzzle !in w.puzzles || w.puzzles[c.puzzle].date > c.today then Decision(Err(NotFound), None)
    else
      var p, saved := w.puzzles[c.puzzle], SavedFor(results, c);
      if saved.Some? && (saved.value.status != InProgress || c.attempt.guesses == []) then
        Decision(Reply(EvaluateWith(w, p, saved.value.attempt, c.thisYear), saved.value.attempt.hintAt), None)
      else if saved.Some? && !Appends(saved.value.attempt, c.attempt) then Decision(Err(BadRequest), None)
      else
        var evaluation := EvaluateWith(w, p, c.attempt, c.thisYear);
        Decision(Reply(evaluation, c.attempt.hintAt),
                 if evaluation.Ok? && c.user.Some? && (saved.Some? || c.attempt.guesses != [])
                 then Some(Pending(Key(c.user.value, c.puzzle), saved, ToSaved(c.attempt, evaluation.value))) else None)
  }

  function Upsert(results: map<Key, Saved>, p: Option<Pending>): map<Key, Saved> {
    if p.Some? then results[p.value.key := p.value.row] else results
  }

  /** A call whose read and upsert are not disturbed by another. */
  function Play(w: World, results: map<Key, Saved>, c: Call): Played {
    var decision := ReadPlay(w, results, c);
    Played(decision.reply, Upsert(results, decision.upsert))
  }

  /** An attempt can be evaluated when the answer and every guessed game exist and the play is a valid one. */
  lemma EvaluationMeaning(w: World, p: Puzzle, a: Attempt, thisYear: int)
    ensures var answer := EvaluateWith(w, p, a, thisYear);
      && (answer == Err(NotFound) <==> p.game !in w.games)
      && (answer.Ok? <==> Evaluable(w, p, a) && Evaluate(InputOf(w, p, a, thisYear)).Ok?)
      && (answer.Ok? ==> answer == Ok(Evaluate(InputOf(w, p, a, thisYear)).value))
      && (answer.Err? && p.game in w.games ==> answer.error == BadRequest)
  {
  }

  /** Nothing saved is taken back or moved: earlier guesses stay, a saved hint stays, a new hint comes after them. */
  predicate KeepsProgress(saved: Attempt, a: Attempt) {
    && |saved.guesses| <= |a.guesses| && (forall i :: 0 <= i < |saved.guesses| ==> a.guesses[i] == saved.guesses[i])
    && (saved.hintAt == None || a.hintAt == saved.hintAt)
    && (saved.hintAt == None && a.hintAt.Some? ==> |saved.guesses| <= a.hintAt.value)
  }

  /**
   What a call is answered and what it will store. A puzzle that does not exist or is not yet out is not
   found. A finished row, or any row when no guesses are sent, is answered as it is saved. A row that the
   call would not keep refuses it. Everything else is evaluated as sent, and stored for a user unless
   nothing was there and nothing was sent.
   */
  lemma PlayAnswers(w: World, results: map<Key, Saved>, c: Call)
    ensures var d := ReadPlay(w, results, c);
      if c.puzzle !in w.puzzles || c.today < w.puzzles[c.puzzle].date then d == Decision(Err(NotFound), None)
      else
        var p := w.puzzles[c.puzzle];
        var known := c.user.Some? && Key(c.user.value, c.puzzle) in results;
        var sent := EvaluateWith(w, p, c.attempt, c.thisYear);
        if known && (results[Key(c.user.value, c.puzzle)].status != InProgress || c.attempt.guesses == []) then
          var saved := results[Key(c.user.value, c.puzzle)].attempt;
          d.upsert == None && Answers(d.reply, EvaluateWith(w, p, saved, c.thisYear), saved.hintAt)
        else if known && !KeepsProgress(results[Key(c.user.value, c.puzzle)].attempt, c.attempt) then
          d == Decision(Err(BadRequest), None)
        else
          && Answers(d.reply, sent, c.attempt.hintAt)
          && (d.upsert.Some? <==> sent.Ok? && c.user.Some? && (known || c.attempt.guesses != []))
          && (d.upsert.Some? ==>
                var row := d.upsert.value.row;
                && d.upsert.value.key == Key(c.user.value, c.puzzle) && row.attempt == c.attempt
                && row.status == sent.value.status && row.attempts == sent.value.attempts)
  {
    if c.user.Some? && Key(c.user.value, c.puzzle) in results {
      var saved := results[Key(c.user.value, c.puzzle)].attempt;
      assert Appends(saved, c.attempt) <==> KeepsProgress(saved, c.attempt);
    }
  }

  /** The reply is the evaluation with the hint it was made for, or its error. */
  predicate Answers(reply: Result<Response, PlayError>, evaluation: Result<Evaluation, PlayError>,
                    hintAt: Option<int>) {
    if evaluation.Ok? then reply.Ok? && reply.value.evaluation == evaluation.value && reply.value.hintAt == hintAt
    else reply.Err? && reply.error == evaluation.error
  }

  function PlayAll(w: World, results: map<Key, Saved>, calls: seq<Call>): map<Key, Saved> {
    if calls == [] then results
    else Play(w, PlayAll(w, results, calls[..|calls| - 1]), calls[|calls| - 1]).results
  }

  // ----- what every stored row keeps -----

  /** The row is a valid play, and its status and attempts are the evaluator's, in any year. */
  ghost predicate RowOk(w: World, k: Key, row: Saved) {
    && k.puzzle in w.puzzles && Evaluable(w, w.puzzles[k.puzzle], row.attempt) && row.attempt.guesses != []
    && forall year :: var e := EvaluateWith(w, w.puzzles[k.puzzle], row.attempt, year);
         e.Ok? && row == ToSaved(row.attempt, e.value)
  }

  ghost predicate ResultsOk(w: World, results: map<Key, Saved>) {
    forall k :: k in results ==> RowOk(w, k, results[k])
  }

  /** How a row may change: finished rows never do, others only by appending. */
  predicate Continues(before: Saved, after: Saved) {
    Appends(before.attempt, after.attempt) && (before.status != InProgress ==> after == before)
  }

  ghost predicate OnlyContinues(before: map<Key, Saved>, after: map<Key, Saved>) {
    forall k :: k in before ==> k in after && Continues(before[k], after[k])
  }

  lemma EvaluatedRowOk(w: World, k: Key, a: Attempt, thisYear: int)
    requires k.puzzle in w.puzzles && EvaluateWith(w, w.puzzles[k.puzzle], a, thisYear).Ok? && a.guesses != []
    ensures RowOk(w, k, ToSaved(a, EvaluateWith(w, w.puzzles[k.puzzle], a, thisYear).value))
  {
    var p := w.puzzles[k.puzzle];
    forall year ensures EvaluateWith(w, p, a, year).Ok?
      && ToSaved(a, EvaluateWith(w, p, a, year).value) == ToSaved(a, EvaluateWith(w, p, a, thisYear).value)
    {
      YearIsIrrelevant(InputOf(w, p, a, thisYear), year);
    }
  }

  lemma YearIsIrrelevant(x: Input, year: int)
    ensures Refused(x.(thisYear := year)) == Refused(x) && StatusOf(x.(thisYear := year)) == StatusOf(x)
    ensures Attempts(x.(thisYear := year)) == Attempts(x)
  {
  }

  /** An undisturbed play keeps every stored row valid and only ever continues rows. */
  lemma PlayKeepsResults(w: World, results: map<Key, Saved>, c: Call)
    requires ResultsOk(w, results)
    ensures ResultsOk(w, Play(w, results, c).results) && OnlyContinues(results, Play(w, results, c).results)
  {
    var upsert := ReadPlay(w, results, c).upsert;
    SameIsContinued(results);
    if upsert.Some? {
      ReadLeavesOk(w, results, c);
      UndisturbedIsReaccepted(w, results, upsert.value);
      WriteContinuesExactly(w, results, upsert.value);
    }
  }

  /**
   Over any sequence of calls that do not overlap: stored guesses only extend, hints stay, finished
   rows are absorbing.
   */
  lemma {:induction false} PlaysKeepResults(w: World, results: map<Key, Saved>, calls: seq<Call>)
    requires ResultsOk(w, results)
    ensures ResultsOk(w, PlayAll(w, results, calls)) && OnlyContinues(results, PlayAll(w, results, calls))
    decreases |calls|
  {
    if calls != [] {
      var init := PlayAll(w, results, calls[..|calls| - 1]);
      PlaysKeepResults(w, results, calls[..|calls| - 1]);
      PlayKeepsResults(w, init, calls[|calls| - 1]);
      var after := PlayAll(w, results, calls);
      forall k | k in results ensures k in after && Continues(results[k], after[k]) {
        ContinuesIsTransitive(results[k], init[k], after[k]);
      }
    }
  }

  lemma ContinuesIsTransitive(a: Saved, b: Saved, c: Saved)
    requires Continues(a, b) && Continues(b, c)
    ensures Continues(a, c)
  {
    assert a.attempt.guesses <= c.attempt.guesses by {
      assert c.attempt.guesses[..|b.attempt.guesses|] == b.attempt.guesses;
    }
  }

  // ----- splitting a play -----

  /** Asking for the hint after the saved guesses already won. */
  predicate HintAfterSavedWin(saved: Saved, a: Attempt) {
    saved.attempt.guesses == a.guesses && saved.attempt.hintAt.None? && a.hintAt.Some? && saved.status == Won
  }

  lemma AppendsExtends(w: World, p: Puzzle, saved: Attempt, a: Attempt, thisYear: int)
    requires Evaluable(w, p, saved) && Evaluable(w, p, a) && Appends(saved, a)
    ensures Extends(InputOf(w, p, saved, thisYear), InputOf(w, p, a, thisYear))
    ensures saved != a ==> InputOf(w, p, saved, thisYear) != InputOf(w, p, a, thisYear)
  {
    var x, y := InputOf(w, p, saved, thisYear), InputOf(w, p, a, thisYear);
    assert forall i :: 0 <= i < |saved.guesses| ==> saved.guesses[i] == a.guesses[i];
    assert forall i :: 0 <= i < |saved.guesses| ==> x.guesses[i] == y.guesses[i];
    if |saved.guesses| == |a.guesses| { assert saved.guesses == a.guesses; }
  }

  /** The saved row a valid longer play extends is in progress, unless it had won and only the hint is new. */
  lemma SavedStageInProgress(w: World, k: Key, saved: Saved, a: Attempt, thisYear: int)
    requires RowOk(w, k, saved) && Appends(saved.attempt, a) && saved.attempt != a
    requires EvaluateWith(w, w.puzzles[k.puzzle], a, thisYear).Ok?
    ensures saved.status == InProgress <==> !HintAfterSavedWin(saved, a)
  {
    var p := w.puzzles[k.puzzle];
    var x, y := InputOf(w, p, saved.attempt, thisYear), InputOf(w, p, a, thisYear);
    AppendsExtends(w, p, saved.attempt, a, thisYear);
    assert EvaluateWith(w, p, saved.attempt, thisYear).Ok?;
    EarlierStageInProgress(x, y);
    if HintAfterWin(x, y) {
      assert saved.attempt.guesses == a.guesses;
    }
  }

  /**
   A play that completes saved progress is answered and stored exactly as if it had been sent in one
   call to a user with no progress, if and only if it is not a hint asked for after the win.
   */
  lemma CompletingEqualsWholePlay(w: World, results: map<Key, Saved>, c: Call)
    requires ResultsOk(w, results) && c.user.Some? && Key(c.user.value, c.puzzle) in results
    requires var k := Key(c.user.value, c.puzzle);
      Appends(results[k].attempt, c.attempt) && Play(w, results - {k}, c).reply.Ok?
    ensures var k := Key(c.user.value, c.puzzle);
      var whole, split := Play(w, results - {k}, c), Play(w, results, c);
      && (split.reply == whole.reply <==> !HintAfterSavedWin(results[k], c.attempt))
      && (split.results == whole.results <==> !HintAfterSavedWin(results[k], c.attempt))
  {
    var k := Key(c.user.value, c.puzzle);
    var p, saved := w.puzzles[c.puzzle], results[k];
    assert saved.attempt.guesses != [];
    FreshPlayIsStored(w, results - {k}, k, c);
    EvaluatedRowOk(w, k, c.attempt, c.thisYear);
    var e := EvaluateWith(w, p, c.attempt, c.thisYear).value;
    assert (results - {k})[k := ToSaved(c.attempt, e)] == results[k := ToSaved(c.attempt, e)];
    if saved.attempt == c.attempt { SameAttemptSameRow(w, k, saved, ToSaved(c.attempt, e)); }
    else { SavedStageInProgress(w, k, saved, c.attempt, c.thisYear); }
    if saved.status == InProgress {
      OngoingPlayIsStored(w, results, k, c);
    } else {
      FinishedPlayIsSaved(w, results, k, c);
      assert results[k := ToSaved(c.attempt, e)][k].attempt == c.attempt;
      if saved.attempt == c.attempt { assert results[k := saved] == results; }
    }
  }

  /** A finished play is answered from the saved row, and nothing is stored. */
  lemma FinishedPlayIsSaved(w: World, results: map<Key, Saved>, k: Key, c: Call)
    requires c.user == Some(k.user) && c.puzzle == k.puzzle && k in results && RowOk(w, k, results[k])
    requires c.today >= w.puzzles[k.puzzle].date && results[k].status != InProgress
    ensures var saved := results[k].attempt;
      var e := EvaluateWith(w, w.puzzles[k.puzzle], saved, c.thisYear);
      e.Ok? && Play(w, results, c) == Played(Ok(Response(e.value, saved.hintAt)), results)
  {
    assert EvaluateWith(w, w.puzzles[k.puzzle], results[k].attempt, c.thisYear).Ok?;
  }

  /** A call that appends to unfinished progress is answered by the evaluator and stored. */
  lemma OngoingPlayIsStored(w: World, results: map<Key, Saved>, k: Key, c: Call)
    requires c.user == Some(k.user) && c.puzzle == k.puzzle && k in results && k.puzzle in w.puzzles
    requires c.today >= w.puzzles[k.puzzle].date && results[k].status == InProgress
    requires c.attempt.guesses != [] && Appends(results[k].attempt, c.attempt)
    requires EvaluateWith(w, w.puzzles[k.puzzle], c.attempt, c.thisYear).Ok?
    ensures var e := EvaluateWith(w, w.puzzles[k.puzzle], c.attempt, c.thisYear).value;
      Play(w, results, c) == Played(Ok(Response(e, c.attempt.hintAt)), results[k := ToSaved(c.attempt, e)])
  {
  }

  /** An accepted call of a user without progress is answered by the evaluator and stored. */
  lemma FreshPlayIsStored(w: World, results: map<Key, Saved>, k: Key, c: Call)
    requires c.user == Some(k.user) && c.puzzle == k.puzzle && k !in results && c.attempt.guesses != []
    requires Play(w, results, c).reply.Ok?
    ensures k.puzzle in w.puzzles && c.today >= w.puzzles[k.puzzle].date
    ensures EvaluateWith(w, w.puzzles[k.puzzle], c.attempt, c.thisYear).Ok?
    ensures var e := EvaluateWith(w, w.puzzles[k.puzzle], c.attempt, c.thisYear).value;
      Play(w, results, c) == Played(Ok(Response(e, c.attempt.hintAt)), results[k := ToSaved(c.attempt, e)])
  {
  }

  /** An instance of the exception: the win was saved first, then the same guesses come with the hint. */
  lemma HintAfterSavedWinExample() returns (w: World, results: map<Key, Saved>, c: Call)
    ensures ResultsOk(w, results) && c.user.Some? && Key(c.user.value, c.puzzle) in results
    ensures var k := Key(c.user.value, c.puzzle);
      var whole, split := Play(w, results - {k}, c), Play(w, results, c);
      && Appends(results[k].attempt, c.attempt) && HintAfterSavedWin(results[k], c.attempt)
      && whole.reply.Ok? && split.reply.Ok? && split.reply != whole.reply && split.results != whole.results
      && split.reply.value.evaluation.attempts == 5 && whole.reply.value.evaluation.attempts == 6
  {
    var guesses := [None, None, None, None, Some(1)];
    w := World(map[1 := EMPTY_GAME], map[1 := Puzzle(Specs, 1, 0, [])]);
    c := Call(Some(1), 1, Attempt(guesses, Some(5)), 0, 2000);
    var k, p, won := Key(1, 1), w.puzzles[1], Attempt(guesses, None);
    FourSkipsAndTheAnswer(w, p, None, 2000);
    FourSkipsAndTheAnswer(w, p, Some(5), 2000);
    EvaluatedRowOk(w, k, won, 2000);
    var row := ToSaved(won, EvaluateWith(w, p, won, 2000).value);
    results := map[k := row];
    assert results - {k} == map[];
    FreshPlayIsStored(w, map[], k, c);
    FinishedPlayIsSaved(w, results, k, c);
    assert (map[])[k := ToSaved(c.attempt, EvaluateWith(w, p, c.attempt, 2000).value)][k].attempt == c.attempt;
  }

  const EMPTY_GAME := RawGame("", "", None, None, [], [], [], [], [], [], [], [])

  lemma FourSkipsAndTheAnswer(w: World, p: Puzzle, hintAt: Option<int>, year: int)
    requires p.mode == Specs && p.game in w.games && hintAt in {None, Some(5)}
    ensures var e := EvaluateWith(w, p, Attempt([None, None, None, None, Some(p.game)], hintAt), year);
            e.Ok? && e.value.status == Won && e.value.attempts == if hintAt.Some? then 6 else 5
  {
    var a := Attempt([None, None, None, None, Some(p.game)], hintAt);
    assert Evaluable(w, p, a);
    var x := InputOf(w, p, a, year);
    assert forall i :: 0 <= i < 4 ==> x.guesses[i].None?;
    assert IsCorrect(x.guesses[4], x.answer.id);
    OutcomeMeaning(x);
  }

  /**
   Any split of a play gives the same final answer and the same stored row as sending it whole:
   after whatever calls were made on an empty row, the completing call is answered as the whole
   play, unless the hint is asked for after the win.
   */
  lemma SplitPlayEqualsWholePlay(w: World, results: map<Key, Saved>, calls: seq<Call>, c: Call)
    requires ResultsOk(w, results) && c.user.Some? && Key(c.user.value, c.puzzle) !in results
    requires Play(w, results, c).reply.Ok?
    requires var k := Key(c.user.value, c.puzzle);
      var after := PlayAll(w, results, calls);
      k in after ==> Appends(after[k].attempt, c.attempt) && !HintAfterSavedWin(after[k], c.attempt)
    ensures var k := Key(c.user.value, c.puzzle);
      var whole, split := Play(w, results, c), Play(w, PlayAll(w, results, calls), c);
      && split.reply == whole.reply
      && (k in split.results <==> k in whole.results)
      && (k in whole.results ==> split.results[k] == whole.results[k])
  {
    var k := Key(c.user.value, c.puzzle);
    var after := PlayAll(w, results, calls);
    PlaysKeepResults(w, results, calls);
    if k in after {
      assert Play(w, after - {k}, c).reply == Play(w, results, c).reply;
      CompletingEqualsWholePlay(w, after, c);
      assert c.attempt.guesses != [];
    }
  }

  /** The calls are growing stages of the last one. */
  ghost predicate Stages(w: World, p: Puzzle, u: UserId, calls: seq<Call>, year: int) {
    && (forall i :: 0 <= i < |calls| ==>
          && calls[i].user == Some(u) && calls[i].attempt.guesses != [] && calls[i].puzzle == calls[0].puzzle
          && calls[i].today >= p.date && Evaluable(w, p, calls[i].attempt))
    && (forall i, j :: 0 <= i <= j < |calls| ==>
          StageOf(InputOf(w, p, calls[i].attempt, year), InputOf(w, p, calls[j].attempt, year))
          && Appends(calls[i].attempt, calls[j].attempt))
  }

  /**
   Conversely every split into growing stages is accepted call by call: as long as no stage asks for
   the hint after the win, each call is stored as sent, so the last one is the whole play.
   */
  lemma {:induction false} EveryStageIsAccepted(w: World, results: map<Key, Saved>, u: UserId, calls: seq<Call>,
                                                n: nat, year: int)
    requires ResultsOk(w, results) && 0 < n <= |calls|
    requires calls[0].puzzle in w.puzzles && Stages(w, w.puzzles[calls[0].puzzle], u, calls, year)
    requires Key(u, calls[0].puzzle) !in results
    requires EvaluateWith(w, w.puzzles[calls[0].puzzle], calls[|calls| - 1].attempt, year).Ok?
    requires forall i, j :: 0 <= i < j < |calls| ==>
      !HintAfterWin(InputOf(w, w.puzzles[calls[0].puzzle], calls[i].attempt, year),
                    InputOf(w, w.puzzles[calls[0].puzzle], calls[j].attempt, year))
    ensures var k := Key(u, calls[0].puzzle);
      var after := PlayAll(w, results, calls[..n]);
      k in after && after[k].attempt == calls[n - 1].attempt && RowOk(w, k, after[k])
    decreases n
  {
    var p, k := w.puzzles[calls[0].puzzle], Key(u, calls[0].puzzle);
    var last := calls[|calls| - 1];
    var c := calls[n - 1];
    assert calls[..n][..n - 1] == calls[..n - 1];
    var before := PlayAll(w, results, calls[..n - 1]);
    StageIsEvaluated(w, p, c.attempt, last.attempt, year, c.thisYear);
    if n == 1 {
      assert before == results;
    } else {
      EveryStageIsAccepted(w, results, u, calls, n - 1, year);
      SavedWinIsWin(w, k, before[k], c.attempt, year);
      assert Appends(calls[n - 2].attempt, c.attempt);
    }
    AcceptedCallIsStored(w, before, k, c);
  }

  /** A valid call that appends to the saved row, if any, and is not a hint after the win, is stored as sent. */
  lemma AcceptedCallIsStored(w: World, results: map<Key, Saved>, k: Key, c: Call)
    requires c.user == Some(k.user) && c.puzzle == k.puzzle && k.puzzle in w.puzzles
        && c.today >= w.puzzles[k.puzzle].date
    requires c.attempt.guesses != [] && EvaluateWith(w, w.puzzles[k.puzzle], c.attempt, c.thisYear).Ok?
    requires k in results ==> RowOk(w, k, results[k]) && Appends(results[k].attempt, c.attempt)
                              && !HintAfterSavedWin(results[k], c.attempt)
    ensures var after := Play(w, results, c).results;
            k in after && after[k].attempt == c.attempt && RowOk(w, k, after[k])
  {
    EvaluatedRowOk(w, k, c.attempt, c.thisYear);
    if k in results && results[k].attempt != c.attempt {
      SavedStageInProgress(w, k, results[k], c.attempt, c.thisYear);
    }
  }

  lemma StageIsEvaluated(w: World, p: Puzzle, a: Attempt, last: Attempt, year: int, thisYear: int)
    requires Evaluable(w, p, a) && EvaluateWith(w, p, last, year).Ok?
    requires StageOf(InputOf(w, p, a, year), InputOf(w, p, last, year))
    ensures EvaluateWith(w, p, a, thisYear).Ok?
  {
    EarlierNotRefused(InputOf(w, p, a, year), InputOf(w, p, last, year));
    YearIsIrrelevant(InputOf(w, p, a, year), thisYear);
    assert InputOf(w, p, a, year).(thisYear := thisYear) == InputOf(w, p, a, thisYear);
  }

  lemma SavedWinIsWin(w: World, k: Key, saved: Saved, a: Attempt, year: int)
    requires RowOk(w, k, saved) && Evaluable(w, w.puzzles[k.puzzle], a)
    ensures HintAfterSavedWin(saved, a)
            ==> HintAfterWin(InputOf(w, w.puzzles[k.puzzle], saved.attempt, year),
                             InputOf(w, w.puzzles[k.puzzle], a, year))
  {
    var x := InputOf(w, w.puzzles[k.puzzle], saved.attempt, year);
    assert EvaluateWith(w, w.puzzles[k.puzzle], saved.attempt, year).Ok?;
    assert saved.status == StatusOf(x) && Refused(x).None?;
  }

  // ----- importing guest results -----

  datatype Item = Item(puzzle: PuzzleId, attempt: Attempt)

  /** The puzzle exists, has been published, and the play is valid and finished. */
  predicate Importable(w: World, item: Item, today: int, thisYear: int) {
    && item.puzzle in w.puzzles && w.puzzles[item.puzzle].date <= today
    && var e := EvaluateWith(w, w.puzzles[item.puzzle], item.attempt, thisYear);
       e.Ok? && e.value.status != InProgress
  }

  function ImportedRow(w: World, item: Item, today: int, thisYear: int): Saved
    requires Importable(w, item, today, thisYear)
  {
    ToSaved(item.attempt, EvaluateWith(w, w.puzzles[item.puzzle], item.attempt, thisYear).value)
  }

  /** A play can be imported when its puzzle is out and it is a valid play that is won or lost. */
  lemma ImportableMeaning(w: World, item: Item, today: int, thisYear: int)
    ensures Importable(w, item, today, thisYear) <==>
      && item.puzzle in w.puzzles && w.puzzles[item.puzzle].date <= today
      && Evaluable(w, w.puzzles[item.puzzle], item.attempt)
      && var e := Evaluate(InputOf(w, w.puzzles[item.puzzle], item.attempt, thisYear));
         e.Ok? && (e.value.status == Won || e.value.status == Lost)
    ensures Importable(w, item, today, thisYear) ==>
      var row := ImportedRow(w, item, today, thisYear);
      var e := Evaluate(InputOf(w, w.puzzles[item.puzzle], item.attempt, thisYear)).value;
      row.attempt == item.attempt && row.status == e.status && row.attempts == e.attempts
  {
  }

  /** The first importable item of a puzzle among the first n. */
  predicate IsFirst(w: World, items: seq<Item>, n: nat, today: int, thisYear: int, i: int) {
    && 0 <= i < n <= |items| && Importable(w, items[i], today, thisYear)
    && forall j :: 0 <= j < i && items[j].puzzle == items[i].puzzle ==> !Importable(w, items[j], today, thisYear)
  }

  /** The row is the first importable play of its puzzle. */
  ghost predicate FromItem(w: World, items: seq<Item>, n: nat, today: int, thisYear: int, k: Key, row: Saved) {
    exists i :: IsFirst(w, items, n, today, thisYear, i) && items[i].puzzle == k.puzzle
                && row == ImportedRow(w, items[i], today, thisYear)
  }

  /**
   What an import of the first n items leaves: nothing existing changes, and a puzzle gains a row
   exactly from its first importable play.
   */
  ghost predicate Imported(w: World, user: UserId, before: map<Key, Saved>, after: map<Key, Saved>, items: seq<Item>,
                           n: nat, today: int, thisYear: int)
    requires n <= |items|
  {
    && (forall k :: k in before ==> k in after && after[k] == before[k])
    && NewRowsFromItems(w, user, before, after, items, n, today, thisYear)
    && EveryItemHasRow(w, user, after, items, n, today, thisYear)
  }

  ghost predicate NewRowsFromItems(w: World, user: UserId, before: map<Key, Saved>, after: map<Key, Saved>,
                                   items: seq<Item>, n: nat, today: int, thisYear: int) {
    forall k :: k in after && k !in before ==> k.user == user && FromItem(w, items, n, today, thisYear, k, after[k])
  }

  ghost predicate EveryItemHasRow(w: World, user: UserId, after: map<Key, Saved>, items: seq<Item>, n: nat, today: int,
                                  thisYear: int)
    requires n <= |items|
  {
    forall i :: 0 <= i < n && Importable(w, items[i], today, thisYear) ==> Key(user, items[i].puzzle) in after
  }

  class DailyStore {
    const world: World
    var results: map<Key, Saved>

    constructor (world: World)
      ensures this.world == world && results == map[]
    {
      this.world := world;
      results := map[];
    }

    /** The guards of `play` in order, and the upsert it decides on. */
    method ReadProgress(c: Call) returns (decision: Decision)
      requires ResultsOk(world, results)
      ensures decision == ReadPlay(world, results, c)
      ensures decision.upsert.Some? ==>
                PendingOk(world, decision.upsert.value) && decision.upsert.value.row.attempt == c.attempt
    {
      if ReadPlay(world, results, c).upsert.Some? { ReadLeavesOk(world, results, c); }
      if c.puzzle !in world.puzzles { return Decision(Err(NotFound), None); }
      var puzzle := world.puzzles[c.puzzle];
      if puzzle.date > c.today { return Decision(Err(NotFound), None); }
      var saved: Option<Saved> := None;
      if c.user.Some? && Key(c.user.value, c.puzzle) in results {
        saved := Some(results[Key(c.user.value, c.puzzle)]);
      }
      if saved.Some? && (saved.value.status != InProgress || c.attempt.guesses == []) {
        var stored := EvaluateWith(world, puzzle, saved.value.attempt, c.thisYear);
        return Decision(Reply(stored, saved.value.attempt.hintAt), None);
      }
      if saved.Some? && !Appends(saved.value.attempt, c.attempt) { return Decision(Err(BadRequest), None); }
      var evaluation := EvaluateWith(world, puzzle, c.attempt, c.thisYear);
      if evaluation.Err? { return Decision(Err(evaluation.error), None); }
      var upsert: Option<Pending> := None;
      if c.user.Some? && (saved.Some? || c.attempt.guesses != []) {
        upsert := Some(Pending(Key(c.user.value, c.puzzle), saved, ToSaved(c.attempt, evaluation.value)));
      }
      decision := Decision(Ok(Response(evaluation.value, c.attempt.hintAt)), upsert);
    }

    /** The upsert, whenever it happens: rows stay valid, and are only continued exactly when the guard still holds. */
    method WriteProgress(p: Pending)
      requires ResultsOk(world, results) && PendingOk(world, p)
      modifies this
      ensures results == old(results)[p.key := p.row] && ResultsOk(world, results)
      ensures OnlyContinues(old(results), results) <==> Reaccepts(Lookup(old(results), p.key), p.row.attempt)
    {
      WriteContinuesExactly(world, results, p);
      results := results[p.key := p.row];
    }

    /** play with nobody else in between: stored rows stay valid, guesses only extend and finished rows stay. */
    method PlayPuzzle(c: Call) returns (reply: Result<Response, PlayError>)
      requires ResultsOk(world, results)
      modifies this
      ensures ResultsOk(world, results) && OnlyContinues(old(results), results)
      ensures Played(reply, results) == Play(world, old(results), c)
    {
      PlayKeepsResults(world, results, c);
      var decision := ReadProgress(c);
      if decision.upsert.Some? { WriteProgress(decision.upsert.value); }
      reply := decision.reply;
    }

    /** importResults; a missing puzzle game aborts it, keeping what was inserted before. */
    method ImportResults(user: UserId, items: seq<Item>, today: int, thisYear: int)
      returns (imported: Result<nat, PlayError>)
      requires ResultsOk(world, results)
      modifies this
      ensures ResultsOk(world, results) && OnlyContinues(old(results), results)
      ensures imported.Ok? ==> Imported(world, user, old(results), results, items, |items|, today, thisYear)
      ensures imported.Ok? ==> imported.value == |results| - |old(results)|
      ensures imported.Err? ==> imported.error == NotFound
      ensures imported.Err? ==> exists i :: 0 <= i < |items| && items[i].puzzle in world.puzzles
                                            && world.puzzles[items[i].puzzle].game !in world.games
    {
      var count := 0;
      var done := set k | k in results && k.user == user :: k.puzzle;
      for n := 0 to |items|
        invariant ResultsOk(world, results)
        invariant forall p :: p in done <==> Key(user, p) in results
        invariant Imported(world, user, old(results), results, items, n, today, thisYear)
        invariant count == |results| - |old(results)|
      {
        var item := items[n];
        if Importable(world, item, today, thisYear) && Key(user, item.puzzle) !in results {
          ItemInserted(world, user, old(results), results, items, n, today, thisYear);
        } else {
          ItemSkipped(world, user, old(results), results, items, n, today, thisYear);
        }
        if item.puzzle !in world.puzzles { continue; }
        var puzzle := world.puzzles[item.puzzle];
        if puzzle.date > today || item.puzzle in done { continue; }
        var evaluation := EvaluateWith(world, puzzle, item.attempt, thisYear);
        if evaluation.Err? {
          if evaluation.error == BadRequest { continue; }
          return Err(NotFound);
        }
        if evaluation.value.status == InProgress { continue; }
        FinishedHasGuesses(world, puzzle, item.attempt, thisYear);
        EvaluatedRowOk(world, Key(user, item.puzzle), item.attempt, thisYear);
        results := results[Key(user, item.puzzle) := ToSaved(item.attempt, evaluation.value)];
        done := done + {item.puzzle};
        count := count + 1;
      }
      imported := Ok(count);
    }
  }

  lemma FinishedHasGuesses(w: World, p: Puzzle, a: Attempt, thisYear: int)
    requires EvaluateWith(w, p, a, thisYear).Ok? && EvaluateWith(w, p, a, thisYear).value.status != InProgress
    ensures a.guesses != []
  {
  }

  lemma FromItemStays(w: World, items: seq<Item>, n: nat, today: int, thisYear: int, k: Key, row: Saved)
    requires n < |items| && FromItem(w, items, n, today, thisYear, k, row)
    ensures FromItem(w, items, n + 1, today, thisYear, k, row)
  {
    var i :| IsFirst(w, items, n, today, thisYear, i) && items[i].puzzle == k.puzzle
             && row == ImportedRow(w, items[i], today, thisYear);
    assert IsFirst(w, items, n + 1, today, thisYear, i);
  }

  lemma FirstIsFromItem(w: World, user: UserId, after: map<Key, Saved>, items: seq<Item>, n: nat, today: int,
                        thisYear: int)
    requires n < |items| && Importable(w, items[n], today, thisYear) && Key(user, items[n].puzzle) !in after
    requires EveryItemHasRow(w, user, after, items, n, today, thisYear)
    ensures FromItem(w, items, n + 1, today, thisYear, Key(user, items[n].puzzle),
        ImportedRow(w, items[n], today, thisYear))
  {
    assert IsFirst(w, items, n + 1, today, thisYear, n);
  }

  lemma NewRowsStay(w: World, user: UserId, before: map<Key, Saved>, after: map<Key, Saved>, items: seq<Item>, n: nat,
                    today: int, thisYear: int)
    requires n < |items| && NewRowsFromItems(w, user, before, after, items, n, today, thisYear)
    ensures NewRowsFromItems(w, user, before, after, items, n + 1, today, thisYear)
  {
    forall k | k in after && k !in before ensures FromItem(w, items, n + 1, today, thisYear, k, after[k]) {
      FromItemStays(w, items, n, today, thisYear, k, after[k]);
    }
  }

  lemma ItemSkipped(w: World, user: UserId, before: map<Key, Saved>, after: map<Key, Saved>, items: seq<Item>, n: nat,
                    today: int, thisYear: int)
    requires n < |items| && Imported(w, user, before, after, items, n, today, thisYear)
    requires Importable(w, items[n], today, thisYear) ==> Key(user, items[n].puzzle) in after
    ensures Imported(w, user, before, after, items, n + 1, today, thisYear)
  {
    NewRowsStay(w, user, before, after, items, n, today, thisYear);
    SkippedHasRow(w, user, after, items, n, today, thisYear);
  }

  lemma SkippedHasRow(w: World, user: UserId, after: map<Key, Saved>, items: seq<Item>, n: nat, today: int,
                      thisYear: int)
    requires n < |items| && EveryItemHasRow(w, user, after, items, n, today, thisYear)
    requires Importable(w, items[n], today, thisYear) ==> Key(user, items[n].puzzle) in after
    ensures EveryItemHasRow(w, user, after, items, n + 1, today, thisYear)
  {
  }

  lemma RowInserted(w: World, user: UserId, before: map<Key, Saved>, after: map<Key, Saved>, items: seq<Item>, n: nat,
                    today: int, thisYear: int, k: Key, row: Saved)
    requires NewRowsFromItems(w, user, before, after, items, n, today, thisYear)
    requires k.user == user && FromItem(w, items, n, today, thisYear, k, row)
    ensures NewRowsFromItems(w, user, before, after[k := row], items, n, today, thisYear)
  {
  }

  lemma ItemInserted(w: World, user: UserId, before: map<Key, Saved>, after: map<Key, Saved>, items: seq<Item>, n: nat,
                     today: int, thisYear: int)
    requires n < |items| && Imported(w, user, before, after, items, n, today, thisYear)
    requires Importable(w, items[n], today, thisYear) && Key(user, items[n].puzzle) !in after
    ensures Imported(w, user, before, after[Key(user, items[n].puzzle) := ImportedRow(w, items[n], today, thisYear)],
                     items, n + 1, today, thisYear)
  {
    var k, row := Key(user, items[n].puzzle), ImportedRow(w, items[n], today, thisYear);
    NewRowsStay(w, user, before, after, items, n, today, thisYear);
    FirstIsFromItem(w, user, after, items, n, today, thisYear);
    RowInserted(w, user, before, after, items, n + 1, today, thisYear, k, row);
    EveryItemStillHasRow(w, user, after, items, n, today, thisYear, row);
  }

  lemma EveryItemStillHasRow(w: World, user: UserId, after: map<Key, Saved>, items: seq<Item>, n: nat, today: int,
                             thisYear: int, row: Saved)
    requires n < |items| && EveryItemHasRow(w, user, after, items, n, today, thisYear)
    ensures EveryItemHasRow(w, user, after[Key(user, items[n].puzzle) := row], items, n + 1, today, thisYear)
  {
  }

  // ----- overlapping plays -----

  /** The stored results and the upserts of calls that have read but not yet written. */
  datatype State = State(results: map<Key, Saved>, pending: set<Pending>)

  datatype Step =
    | Read(call: Call)
    | Write(upsert: Pending)
    | Insert(user: UserId, item: Item, today: int, thisYear: int)

  /** `play` in two steps; an import inserts a row of its own, or fails on the unique key. */
  function Apply(w: World, s: State, step: Step): State {
    match step
    case Read(c) =>
      var upsert := ReadPlay(w, s.results, c).upsert;
      if upsert.Some? then s.(pending := s.pending + {upsert.value}) else s
    case Write(p) => if p in s.pending then s.(results := s.results[p.key := p.row]) else s
    case Insert(user, item, today, thisYear) =>
      if Importable(w, item, today, thisYear) && Key(user, item.puzzle) !in s.results
      then s.(results := s.results[Key(user, item.puzzle) := ImportedRow(w, item, today, thisYear)]) else s
  }

  /** An import adds the row of an importable play where the user has none, and does nothing else. */
  lemma InsertMeans(w: World, s: State, user: UserId, item: Item, today: int, thisYear: int)
    ensures var s', k := Apply(w, s, Step.Insert(user, item, today, thisYear)), Key(user, item.puzzle);
      && s' == s.(results := s'.results) && (forall x :: x in s.results ==> x in s'.results)
      && (forall x :: x in s'.results && x != k ==> x in s.results && s'.results[x] == s.results[x])
      && (k in s.results ==> s'.results[k] == s.results[k])
      && (k !in s.results ==> (k in s'.results <==> Importable(w, item, today, thisYear)))
      && (k !in s.results && k in s'.results ==> s'.results[k] == ImportedRow(w, item, today, thisYear))
  {
  }

  function RunAll(w: World, s: State, steps: seq<Step>): State
    decreases |steps|
  {
    if steps == [] then s else RunAll(w, Apply(w, s, steps[0]), steps[1..])
  }

  ghost predicate PendingOk(w: World, p: Pending) {
    && RowOk(w, p.key, p.row)
    && (p.read.Some? ==> p.read.value.status == InProgress && Appends(p.read.value.attempt, p.row.attempt))
  }

  ghost predicate DailyOk(w: World, s: State) {
    ResultsOk(w, s.results) && forall p :: p in s.pending ==> PendingOk(w, p)
  }

  /** The guard of `play`, asked again of the row that is there when the upsert happens. */
  predicate Reaccepts(saved: Option<Saved>, a: Attempt) {
    saved.Some? ==> saved.value.attempt == a || (saved.value.status == InProgress && Appends(saved.value.attempt, a))
  }

  lemma SameAttemptSameRow(w: World, k: Key, a: Saved, b: Saved)
    requires RowOk(w, k, a) && RowOk(w, k, b) && a.attempt == b.attempt
    ensures a == b
  {
    var e := EvaluateWith(w, w.puzzles[k.puzzle], a.attempt, 0);
    assert a == ToSaved(a.attempt, e.value) && b == ToSaved(b.attempt, e.value);
  }

  /** An upsert, from however old a read, only continues the stored rows if and only if its guard still holds. */
  lemma WriteContinuesExactly(w: World, results: map<Key, Saved>, p: Pending)
    requires ResultsOk(w, results) && RowOk(w, p.key, p.row)
    ensures OnlyContinues(results, results[p.key := p.row]) <==> Reaccepts(Lookup(results, p.key), p.row.attempt)
  {
    var after := results[p.key := p.row];
    if p.key in results {
      var row := results[p.key];
      if row.attempt == p.row.attempt { SameAttemptSameRow(w, p.key, row, p.row); }
      assert Continues(row, after[p.key]) <==> Reaccepts(Some(row), p.row.attempt);
    }
  }

  /** A call that finds at its upsert the row it had read is always accepted again. */
  lemma UndisturbedIsReaccepted(w: World, results: map<Key, Saved>, p: Pending)
    requires PendingOk(w, p) && p.read == Lookup(results, p.key)
    ensures Reaccepts(Lookup(results, p.key), p.row.attempt)
  {
  }

  lemma ReadLeavesOk(w: World, results: map<Key, Saved>, c: Call)
    requires ResultsOk(w, results) && ReadPlay(w, results, c).upsert.Some?
    ensures var p := ReadPlay(w, results, c).upsert.value;
      && PendingOk(w, p) && p.key.puzzle == c.puzzle && c.user == Some(p.key.user)
      && p.read == Lookup(results, p.key) && p.row.attempt == c.attempt
  {
    var p := ReadPlay(w, results, c).upsert.value;
    if c.attempt.guesses != [] { EvaluatedRowOk(w, p.key, c.attempt, c.thisYear); }
  }

  lemma StepKeepsDailyOk(w: World, s: State, step: Step)
    requires DailyOk(w, s)
    ensures DailyOk(w, Apply(w, s, step))
    ensures !step.Write? ==> OnlyContinues(s.results, Apply(w, s, step).results)
  {
    match step
    case Read(c) => if ReadPlay(w, s.results, c).upsert.Some? { ReadLeavesOk(w, s.results, c); }
    case Write(p) =>
    case Insert(user, item, today, thisYear) =>
      if Importable(w, item, today, thisYear) {
        FinishedHasGuesses(w, w.puzzles[item.puzzle], item.attempt, thisYear);
        EvaluatedRowOk(w, Key(user, item.puzzle), item.attempt, thisYear);
      }
  }

  /** Whatever overlaps, every stored row stays a valid play with the evaluator's status and attempts. */
  lemma {:induction false} OverlapsKeepRowsValid(w: World, s: State, steps: seq<Step>)
    requires DailyOk(w, s)
    ensures DailyOk(w, RunAll(w, s, steps))
    decreases |steps|
  {
    if steps != [] {
      StepKeepsDailyOk(w, s, steps[0]);
      OverlapsKeepRowsValid(w, Apply(w, s, steps[0]), steps[1..]);
    }
  }

  /** At every moment of the run rows are only continued. */
  ghost predicate AlwaysContinues(w: World, s: State, steps: seq<Step>)
    decreases |steps|
  {
    steps == [] ||
    (&& OnlyContinues(s.results, Apply(w, s, steps[0]).results)
     && AlwaysContinues(w, Apply(w, s, steps[0]), steps[1..]))
  }

  /** Every upsert of the run would still be accepted by the guard when it happens. */
  predicate WritesReaccepted(w: World, s: State, steps: seq<Step>)
    decreases |steps|
  {
    steps == [] ||
    (&& (steps[0].Write? && steps[0].upsert in s.pending ==>
           Reaccepts(Lookup(s.results, steps[0].upsert.key), steps[0].upsert.row.attempt))
     && WritesReaccepted(w, Apply(w, s, steps[0]), steps[1..]))
  }

  /**
   Over any interleaving of reads, upserts and imports by anyone: stored guesses only extend, hints
   stay and finished rows are absorbing if and only if every upsert meets a row its guard accepts.
   */
  lemma {:induction false} OverlapsContinueExactly(w: World, s: State, steps: seq<Step>)
    requires DailyOk(w, s)
    ensures AlwaysContinues(w, s, steps) <==> WritesReaccepted(w, s, steps)
    ensures AlwaysContinues(w, s, steps) ==> OnlyContinues(s.results, RunAll(w, s, steps).results)
    decreases |steps|
  {
    if steps == [] {
      SameIsContinued(s.results);
    } else {
      var next := Apply(w, s, steps[0]);
      StepKeepsDailyOk(w, s, steps[0]);
      OverlapsContinueExactly(w, next, steps[1..]);
      if steps[0].Write? {
        if steps[0].upsert in s.pending { WriteContinuesExactly(w, s.results, steps[0].upsert); }
        else { SameIsContinued(s.results); }
      }
      if AlwaysContinues(w, s, steps) { ContinuesTwice(s.results, next.results, RunAll(w, s, steps).results); }
    }
  }

  lemma SameIsContinued(results: map<Key, Saved>)
    ensures OnlyContinues(results, results)
  {
  }

  lemma ContinuesTwice(a: map<Key, Saved>, b: map<Key, Saved>, c: map<Key, Saved>)
    requires OnlyContinues(a, b) && OnlyContinues(b, c)
    ensures OnlyContinues(a, c)
  {
    forall k | k in a ensures k in c && Continues(a[k], c[k]) {
      ContinuesIsTransitive(a[k], b[k], c[k]);
    }
  }

  /** Every upsert finds the row its call had read, as when calls for one puzzle and user do not overlap. */
  predicate Undisturbed(w: World, s: State, steps: seq<Step>)
    decreases |steps|
  {
    steps == [] ||
    (&& (steps[0].Write? && steps[0].upsert in s.pending ==>
        steps[0].upsert.read == Lookup(s.results, steps[0].upsert.key))
     && Undisturbed(w, Apply(w, s, steps[0]), steps[1..]))
  }

  /** So without disturbance nothing saved is ever lost, whoever else plays or imports meanwhile. */
  lemma {:induction false} UndisturbedContinues(w: World, s: State, steps: seq<Step>)
    requires DailyOk(w, s) && Undisturbed(w, s, steps)
    ensures WritesReaccepted(w, s, steps)
    decreases |steps|
  {
    if steps != [] {
      StepKeepsDailyOk(w, s, steps[0]);
      UndisturbedContinues(w, Apply(w, s, steps[0]), steps[1..]);
      if steps[0].Write? && steps[0].upsert in s.pending {
        UndisturbedIsReaccepted(w, s.results, steps[0].upsert);
      }
    }
  }

  /** A call alone is its read followed by its upsert. */
  lemma PlayIsReadThenWrite(w: World, s: State, c: Call)
    ensures var decision := ReadPlay(w, s.results, c);
      Play(w, s.results, c).results ==
        if decision.upsert.Some? then Apply(w, Apply(w, s, Read(c)), Write(decision.upsert.value)).results
        else Apply(w, s, Read(c)).results
  {
  }

  /** An instance of the failure: two calls read no row, the longer one is stored, the shorter one replaces it. */
  lemma OverlappingPlaysLoseGuesses() returns (w: World, longer: Call, shorter: Call, first: Pending, second: Pending)
    ensures var read := RunAll(w, State(map[], {}), [Read(longer), Read(shorter)]);
      && first in read.pending && second in read.pending && first.key == second.key
      && first.row.attempt == longer.attempt && second.row.attempt == shorter.attempt
      && !AlwaysContinues(w, read, [Write(first), Write(second)])
  {
    w := World(map[1 := EMPTY_GAME], map[1 := Puzzle(Cover, 1, 0, [])]);
    longer := Call(Some(1), 1, Attempt([None, None], None), 0, 2000);
    shorter := Call(Some(1), 1, Attempt([None], None), 0, 2000);
    var start := State(map[], {});
    first := ReadPlay(w, map[], longer).upsert.value;
    second := ReadPlay(w, map[], shorter).upsert.value;
    var mid := Apply(w, start, Read(longer));
    assert mid == State(map[], {first});
    assert [Read(longer), Read(shorter)][1..] == [Read(shorter)] && [Read(shorter)][1..] == [];
    assert RunAll(w, mid, [Read(shorter)]) == RunAll(w, Apply(w, mid, Read(shorter)), []);
    assert RunAll(w, start, [Read(longer), Read(shorter)]) == State(map[], {first, second});
    var read := State(map[], {first, second});
    var stored := Apply(w, read, Write(first));
    assert [Write(first), Write(second)][1..] == [Write(second)];
    assert stored.results[first.key].attempt == longer.attempt;
    assert !Continues(first.row, second.row);
    assert !OnlyContinues(stored.results, Apply(w, stored, Write(second)).results);
  }
}
