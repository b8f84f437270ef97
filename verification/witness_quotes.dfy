/** The witness-quote step of the finale's article builder
    (projects/breaking-news-finale/src/pages/ArticleWitnessQuotesPage.tsx).

    The player pages through the witnesses' testimonies, highlights a
    passage, adds it as a quote attributed to the witness, removes quotes
    by position and finally submits the list into the game state. The
    page's cells are the fields of class `WitnessQuotesPage`; the witness
    list (`WITNESS_LIST`, whose module is not part of this model) is given
    by its names, and the game state is the `App` object the page holds.
    What the browser reports as the selected text is a parameter. */
module WitnessQuotes {
  import opened Common
  import opened FinaleApp

  const SubmitError: string := "Please select at least one quote from the witnesses"
  const ArticleWitnessQuotes: string := "article_witness_quotes"

  /** `"${text}" - ${name}`. */
  function Quote(text: string, name: string): string
  {
    "\"" + text + "\" - " + name
  }

  /** `gameState?.article_witness_quotes || []` for a field declared
      `string[]`: the strings of a stored array of strings, and none when
      the state, the field or such an array is missing. */
  function StoredQuotes(g: Option<GameState>): seq<string>
  {
    if g.Some? && ArticleWitnessQuotes in g.value && g.value[ArticleWitnessQuotes].JArr?
       && forall i :: 0 <= i < |g.value[ArticleWitnessQuotes].items| ==> g.value[ArticleWitnessQuotes].items[i].JStr?
    then
      var items := g.value[ArticleWitnessQuotes].items;
      seq(|items|, i requires 0 <= i < |items| && items[i].JStr? => items[i].s)
    else []
  }

  /** A list of quotes as the JSON array it is saved as. */
  function QuotesJson(quotes: seq<string>): Json
  {
    JArr(seq(|quotes|, i requires 0 <= i < |quotes| => JStr(quotes[i])))
  }

  /** `prev.filter((_, i) => i !== index)`: every entry whose position is
      not `index`. */
  function WithoutIndex(quotes: seq<string>, index: int): seq<string>
    decreases |quotes|
  {
    if |quotes| == 0 then []
    else (if index == 0 then [] else [quotes[0]]) + WithoutIndex(quotes[1..], index - 1)
  }

  /** The page's cells. */
  datatype Page = Page(quotes: seq<string>, error: string, index: int, highlighted: string)

  /** The witness index is a position of the witness list. */
  predicate IndexInRange(p: Page, witnesses: seq<string>)
  {
    0 <= p.index < |witnesses|
  }

  /** `handleTextSelection`, given the selected text (`None` for no
      selection): a selection with something besides whitespace becomes
      the highlight, trimmed. */
  function Highlighted(p: Page, selection: Option<string>): Page
  {
    if selection.Some? && |Trim(selection.value, JsWhitespace)| > 0 then
      p.(highlighted := Trim(selection.value, JsWhitespace))
    else p
  }

  /** `addQuote` with the guard as written: the raw highlight is looked up
      among the stored quotes, which are all in the attributed form. */
  function AddedAsWritten(p: Page, witnesses: seq<string>): Page
    requires IndexInRange(p, witnesses)
  {
    if p.highlighted != "" && p.highlighted !in p.quotes then
      p.(quotes := p.quotes + [Quote(p.highlighted, witnesses[p.index])], highlighted := "", error := "")
    else p
  }

  /** `addQuote` with the guard looking up the quote it would add; the rest
      of the model uses this one. */
  function Added(p: Page, witnesses: seq<string>): Page
    requires IndexInRange(p, witnesses)
  {
    var q := Quote(p.highlighted, witnesses[p.index]);
    if p.highlighted != "" && q !in p.quotes then
      p.(quotes := p.quotes + [q], highlighted := "", error := "")
    else p
  }

  /** `removeQuote(index)`. */
  function Removed(p: Page, index: int): Page
  {
    p.(quotes := WithoutIndex(p.quotes, index))
  }

  /** `nextWitness`, with the highlight cleared when the index changes. */
  function Next(p: Page, witnesses: seq<string>): Page
  {
    if p.index < |witnesses| - 1 then p.(index := p.index + 1, highlighted := "") else p
  }

  /** `prevWitness`, with the highlight cleared when the index changes. */
  function Prev(p: Page): Page
  {
    if p.index > 0 then p.(index := p.index - 1, highlighted := "") else p
  }

  /** The page's side of `handleSubmit`. */
  function Submitted(p: Page): Page
  {
    if |p.quotes| == 0 then p.(error := SubmitError) else p
  }

  /** The game-state side of `handleSubmit`. */
  function SubmittedApp(p: Page, a: AppState): AppState
  {
    if |p.quotes| == 0 then a
    else Moved(Updated(a, map[ArticleWitnessQuotes := QuotesJson(p.quotes)]))
  }

  /** The step's state cells, the witnesses and the game it belongs to. */
  class WitnessQuotesPage {
    const app: App
    const witnesses: seq<string>
    var quotes: seq<string>
    var error: string
    var currentWitnessIndex: int
    var highlightedText: string

    function State(): Page
      reads this
    {
      Page(quotes, error, currentWitnessIndex, highlightedText)
    }

    /** What every method keeps. */
    predicate Valid()
      reads this
    {
      IndexInRange(State(), witnesses)
    }

    /** Mounting the page: the quotes saved earlier, the first witness, no
        highlight and no error. The page renders `WITNESS_LIST[0]`, so the
        list must not be empty. */
    constructor(app: App, witnesses: seq<string>)
      requires |witnesses| > 0
      ensures Valid() && this.app == app && this.witnesses == witnesses
      ensures State() == Page(StoredQuotes(app.gameState), "", 0, "")
    {
      this.app := app;
      this.witnesses := witnesses;
      quotes := StoredQuotes(app.gameState);
      error := "";
      currentWitnessIndex := 0;
      highlightedText := "";
    }

    method HandleTextSelection(selection: Option<string>)
      requires Valid()
      modifies this
      ensures Valid() && State() == Highlighted(old(State()), selection)
    {
      if selection.Some? {
        var t := Trim(selection.value, JsWhitespace);
        if |t| > 0 {
          highlightedText := t;
        }
      }
    }

    method AddQuote()
      requires Valid()
      modifies this
      ensures Valid() && State() == Added(old(State()), witnesses)
    {
      var newQuote := Quote(highlightedText, witnesses[currentWitnessIndex]);
      if highlightedText != "" && newQuote !in quotes {
        quotes := quotes + [newQuote];
        highlightedText := "";
        if error != "" {
          error := "";
        }
      }
    }

    method RemoveQuote(index: int)
      requires Valid()
      modifies this
      ensures Valid() && State() == Removed(old(State()), index)
    {
      quotes := WithoutIndex(quotes, index);
    }

    method NextWitness()
      requires Valid()
      modifies this
      ensures Valid() && State() == Next(old(State()), witnesses)
    {
      if currentWitnessIndex < |witnesses| - 1 {
        currentWitnessIndex := currentWitnessIndex + 1;
        highlightedText := "";
      }
    }

    method PrevWitness()
      requires Valid()
      modifies this
      ensures Valid() && State() == Prev(old(State()))
    {
      if currentWitnessIndex > 0 {
        currentWitnessIndex := currentWitnessIndex - 1;
        highlightedText := "";
      }
    }

    method HandleSubmit()
      requires Valid()
      modifies this, app
      ensures Valid() && State() == Submitted(old(State()))
      ensures app.State() == SubmittedApp(old(State()), old(app.State()))
    {
      if |quotes| == 0 {
        error := SubmitError;
        return;
      }
      app.UpdateGameState(map[ArticleWitnessQuotes := QuotesJson(quotes)]);
      app.MoveToNextStage();
    }
  }

  // ---------------------------------------------------------------------
  // Properties
  // ---------------------------------------------------------------------

  /** Every step keeps the witness index a position of the list. */
  lemma StepsKeepIndexInRange(p: Page, witnesses: seq<string>, selection: Option<string>, index: int)
    requires IndexInRange(p, witnesses)
    ensures IndexInRange(Highlighted(p, selection), witnesses)
    ensures IndexInRange(Added(p, witnesses), witnesses)
    ensures IndexInRange(Removed(p, index), witnesses)
    ensures IndexInRange(Next(p, witnesses), witnesses)
    ensures IndexInRange(Prev(p), witnesses)
    ensures IndexInRange(Submitted(p), witnesses)
  {
  }

  /** Next moves one witness on, and clears the highlight, only before the
      last witness; elsewhere it changes nothing. Prev mirrors it at the
      first witness. */
  lemma NavigationRule(p: Page, witnesses: seq<string>)
    ensures p.index < |witnesses| - 1 ==> Next(p, witnesses).index == p.index + 1 && Next(p, witnesses).highlighted == ""
    ensures p.index >= |witnesses| - 1 ==> Next(p, witnesses) == p
    ensures p.index > 0 ==> Prev(p).index == p.index - 1 && Prev(p).highlighted == ""
    ensures p.index <= 0 ==> Prev(p) == p
    ensures Next(p, witnesses).quotes == p.quotes && Prev(p).quotes == p.quotes
  {
  }

  /** With no highlight, adding does nothing; otherwise a new quote is
      appended in the attributed form, the highlight is cleared and so is
      the error. */
  lemma AddRule(p: Page, witnesses: seq<string>)
    requires IndexInRange(p, witnesses)
    ensures p.highlighted == "" ==> Added(p, witnesses) == p
    ensures p.highlighted != "" && Quote(p.highlighted, witnesses[p.index]) !in p.quotes ==>
      Added(p, witnesses) == p.(quotes := p.quotes + [Quote(p.highlighted, witnesses[p.index])],
                                highlighted := "", error := "")
  {
  }

  /** No quote is ever stored twice. */
  lemma AddKeepsQuotesDistinct(p: Page, witnesses: seq<string>)
    requires IndexInRange(p, witnesses)
    requires forall i, j :: 0 <= i < j < |p.quotes| ==> p.quotes[i] != p.quotes[j]
    ensures var q := Added(p, witnesses).quotes;
            forall i, j :: 0 <= i < j < |q| ==> q[i] != q[j]
  {
    var q := Added(p, witnesses).quotes;
    forall i, j | 0 <= i < j < |q|
      ensures q[i] != q[j]
    {
      if j == |p.quotes| {
        assert q[i] == p.quotes[i];
      }
    }
  }

  /** A passage with something besides whitespace, once highlighted, is
      added trimmed under the current witness's name. */
  lemma HighlightThenAdd(p: Page, witnesses: seq<string>, text: string)
    requires IndexInRange(p, witnesses)
    requires |Trim(text, JsWhitespace)| > 0
    requires Quote(Trim(text, JsWhitespace), witnesses[p.index]) !in p.quotes
    ensures Added(Highlighted(p, Some(text)), witnesses).quotes
            == p.quotes + [Quote(Trim(text, JsWhitespace), witnesses[p.index])]
  {
  }

  /** Filtering by position deletes exactly entry `index` and keeps the
      others in order; a position outside the list changes nothing. */
  lemma {:induction false} WithoutIndexIs(quotes: seq<string>, index: int)
    ensures 0 <= index < |quotes| ==> WithoutIndex(quotes, index) == quotes[..index] + quotes[index + 1..]
    ensures !(0 <= index < |quotes|) ==> WithoutIndex(quotes, index) == quotes
    decreases |quotes|
  {
    if |quotes| > 0 {
      WithoutIndexIs(quotes[1..], index - 1);
      if 0 < index < |quotes| {
        assert quotes[..index] + quotes[index + 1..] == [quotes[0]] + (quotes[1..][..index - 1] + quotes[1..][index..]);
      } else if index == 0 {
        assert quotes[index + 1..] == quotes[1..];
      }
    }
  }

  /** `removeQuote` deletes exactly entry `index`, or nothing. */
  lemma RemoveRule(p: Page, index: int)
    ensures 0 <= index < |p.quotes| ==> Removed(p, index).quotes == p.quotes[..index] + p.quotes[index + 1..]
    ensures !(0 <= index < |p.quotes|) ==> Removed(p, index) == p
  {
    WithoutIndexIs(p.quotes, index);
  }

  /** Submitting with no quotes shows the submit error and saves nothing. */
  lemma SubmitNothingSelected(p: Page, a: AppState)
    requires |p.quotes| == 0
    ensures Submitted(p) == p.(error := SubmitError) && SubmittedApp(p, a) == a
  {
  }

  /** Saved quotes read back as the same quotes. */
  lemma QuotesRoundTrip(quotes: seq<string>, g: GameState)
    requires ArticleWitnessQuotes in g && g[ArticleWitnessQuotes] == QuotesJson(quotes)
    ensures StoredQuotes(Some(g)) == quotes
  {
  }

  /** Submitting quotes leaves the page as it is and saves them as
      `article_witness_quotes`. */
  lemma SubmitSavesQuotes(p: Page, a: AppState)
    requires |p.quotes| > 0 && a.gameState.Some?
    ensures Submitted(p) == p
    ensures StoredQuotes(SubmittedApp(p, a).gameState) == p.quotes
  {
    var b := Updated(a, map[ArticleWitnessQuotes := QuotesJson(p.quotes)]);
    QuotesRoundTrip(p.quotes, Moved(b).gameState.value);
  }

  /** Submitting quotes moves the stage on from stage `i` to `i + 1` and
      keeps every field other than the stage and the saved quotes. */
  lemma SubmitAdvances(p: Page, a: AppState, i: int)
    requires |p.quotes| > 0 && a.gameState.Some? && 0 <= i < |GameStages| - 1
    requires StageName(a.gameState.value) == Some(GameStages[i])
    ensures var g := SubmittedApp(p, a).gameState.value;
      StageName(g) == Some(GameStages[i + 1])
      && forall k :: k != CurrentStage && k != ArticleWitnessQuotes ==>
           (k in g <==> k in a.gameState.value) && (k in g ==> g[k] == a.gameState.value[k])
  {
    var b := Updated(a, map[ArticleWitnessQuotes := QuotesJson(p.quotes)]);
    assert StageName(b.gameState.value) == Some(GameStages[i]);
    MoveAdvances(b, i);
  }

  // ---------------------------------------------------------------------
  // The duplicate guard as written
  // ---------------------------------------------------------------------

  /** As written, the guard never sees a stored quote, since those all
      carry quotation marks and the witness's name: highlighting and adding
      the same passage twice stores the same quote twice. The corrected
      guard adds it once. */
  lemma SamePassageAddedTwice()
    ensures var p := Page([], "", 0, "I saw him");
      var once := AddedAsWritten(p, ["Ann"]);
      var twice := AddedAsWritten(once.(highlighted := "I saw him"), ["Ann"]);
      twice.quotes == [Quote("I saw him", "Ann"), Quote("I saw him", "Ann")]
      && Added(Added(p, ["Ann"]).(highlighted := "I saw him"), ["Ann"]).quotes == [Quote("I saw him", "Ann")]
  {
    var q := Quote("I saw him", "Ann");
    assert q[0] == '"';
    assert "I saw him"[0] == 'I';
    assert "I saw him" != q;
  }

  /** Wherever the stored quotes hold neither the raw highlight nor the
      quote it makes, both guards add the same quote. */
  lemma AsWrittenAgreesOtherwise(p: Page, witnesses: seq<string>)
    requires IndexInRange(p, witnesses)
    requires p.highlighted !in p.quotes && Quote(p.highlighted, witnesses[p.index]) !in p.quotes
    ensures AddedAsWritten(p, witnesses) == Added(p, witnesses)
  {
  }
}
