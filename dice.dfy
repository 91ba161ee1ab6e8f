/** The roll controller of the dice widget: a guarded two-phase roll (start,
    then a deferred completion), the statistics it updates, what it shows and
    what it persists. */
module Dice {
  import opened Maybe
  import opened Text
  import opened History
  import opened Storage

  /** How many of the recent results the summary line shows. */
  const ShownRecent := 3

  /** The separator between results in the summary line. */
  const Separator := ", "

  /** Each integer as its text. */
  function DecimalAll(xs: seq<int>): seq<string> {
    seq(|xs|, i requires 0 <= i < |xs| => Decimal(xs[i]))
  }

  /** The summary line of recent results: at most the first three entries of
      the history, as text, joined by ", ". */
  function RecentText(h: seq<int>): (r: string)
    ensures r == "" <==> h == []
  {
    Join(DecimalAll(Take(h, ShownRecent)), Separator)
  }

  /** Splitting a non-empty summary line at ", " and reading each piece gives
      back the first three entries of the history (or all of them, if there
      are fewer). */
  lemma RecentTextReadsBack(h: seq<int>)
    ensures h != [] ==>
      var parts := Split(RecentText(h), Separator);
      |parts| == Min(ShownRecent, |h|) &&
      forall i :: 0 <= i < |parts| ==> ParseDecimal(parts[i]) == Some(h[i])
  {
    var shown := DecimalAll(Take(h, ShownRecent));
    if h != [] {
      forall i | 0 <= i < |shown| ensures Separator[0] !in shown[i] {
        DecimalHasNoComma(h[i]);
      }
      SplitJoin(shown, Separator);
      forall i | 0 <= i < |shown| ensures ParseDecimal(shown[i]) == Some(h[i]) {
        DecimalRoundTrip(h[i]);
      }
    }
  }

  /** The dice widget. `store` is the browser's local storage; the remaining
      fields are the roll state and what the page shows. */
  class TelegramDice {
    const store: LocalStorage

    var totalRolls: int
    var lastRolls: seq<int>
    var isRolling: bool
    /** The completion callback `rollDice` has scheduled, holding the result
        it drew; `None` when no callback is pending. */
    var scheduled: Option<int>

    /** The roll button's `disabled` flag. */
    var buttonDisabled: bool
    /** Whether the die carries the `rolling` (spinning) class. */
    var diceSpinning: bool
    /** The result element's text, and whether it carries the `result-pop` class. */
    var resultText: string
    var resultPop: bool
    /** The die's `data-value` face; `None` while it is as the page markup set it. */
    var face: Option<int>
    /** The texts of the total-rolls and recent-rolls elements. */
    var totalText: string
    var recentText: string

    /** A callback is pending exactly while a roll is in progress, with a face
        as its result, and the button is disabled and the die spins exactly then. */
    ghost predicate RollPhase()
      reads this`isRolling, this`scheduled, this`buttonDisabled, this`diceSpinning
    {
      && (isRolling <==> scheduled.Some?)
      && (scheduled.Some? ==> IsFace(scheduled.value))
      && buttonDisabled == isRolling
      && diceSpinning == isRolling
    }

    /** The statistics texts show the current statistics. */
    ghost predicate Shown()
      reads this`totalRolls, this`lastRolls, this`totalText, this`recentText
    {
      totalText == Decimal(totalRolls) && recentText == RecentText(lastRolls)
    }

    /** The object invariant: the roll phase is consistent and the page shows
        the current statistics. */
    ghost predicate Valid()
      reads this
    {
      RollPhase() && Shown()
    }

    /** A new widget on a page: idle, with the statistics loaded from storage
        over the defaults 0 and [], and shown. */
    constructor (store: LocalStorage)
      ensures Valid() && this.store == store
      ensures !isRolling && resultText == "" && !resultPop && face == None
      ensures Stats(totalRolls, lastRolls) == Restore(store.GetItem(StorageKey), Stats(0, []))
    {
      this.store := store;
      totalRolls := 0;
      lastRolls := [];
      isRolling := false;
      scheduled := None;
      buttonDisabled := false;
      diceSpinning := false;
      resultText := "";
      resultPop := false;
      face := None;
      totalText := "";
      recentText := "";
      new;
      LoadFromStorage();
      UpdateDisplay();
    }

    /** Starts a roll that draws `draw`, unless one is already in progress, in
        which case nothing at all changes. */
    method RollDice(draw: int)
      requires Valid() && IsFace(draw)
      modifies this`isRolling, this`scheduled, this`buttonDisabled, this`diceSpinning,
               this`resultText, this`resultPop
      ensures Valid()
      ensures old(isRolling) ==> unchanged(this)
      ensures !old(isRolling) ==>
        isRolling && scheduled == Some(draw) && buttonDisabled && diceSpinning &&
        resultText == "?" && !resultPop
    {
      if isRolling {
        return;
      }
      isRolling := true;
      buttonDisabled := true;
      diceSpinning := true;
      resultText := "?";
      resultPop := false;
      scheduled := Some(draw);
    }

    /** The space-bar handler: rolls and suppresses the page's default action
        only when no roll is in progress. */
    method OnKeyDown(code: string, draw: int) returns (preventDefault: bool)
      requires Valid() && IsFace(draw)
      modifies this`isRolling, this`scheduled, this`buttonDisabled, this`diceSpinning,
               this`resultText, this`resultPop
      ensures Valid()
      ensures preventDefault == (code == "Space" && !old(isRolling))
      ensures !preventDefault ==> unchanged(this)
      ensures preventDefault ==>
        isRolling && scheduled == Some(draw) && buttonDisabled && diceSpinning &&
        resultText == "?" && !resultPop
    {
      preventDefault := code == "Space" && !isRolling;
      if preventDefault {
        RollDice(draw);
      }
    }

    /** The deferred completion of a roll: the result is recorded, shown and
        persisted first, and only then is the guard released. */
    method TimerFires()
      requires Valid() && isRolling
      modifies this`totalRolls, this`lastRolls, this`isRolling, this`scheduled,
               this`buttonDisabled, this`diceSpinning, this`resultText, this`resultPop,
               this`face, this`totalText, this`recentText, store`items
      ensures Valid()
      ensures !isRolling && !buttonDisabled && !diceSpinning
      ensures totalRolls == old(totalRolls) + 1
      ensures lastRolls == Push(old(lastRolls), old(scheduled.value))
      ensures ValidHistory(old(lastRolls)) ==> ValidHistory(lastRolls)
      ensures resultText == Decimal(old(scheduled.value)) && resultPop
      ensures face == Some(old(scheduled.value))
      ensures store.items == if store.writable
                             then old(store.items)[StorageKey := Serialize(Stats(totalRolls, lastRolls))]
                             else old(store.items)
    {
      var result := scheduled.value;
      ShowResult(result);
      diceSpinning := false;
      isRolling := false;
      buttonDisabled := false;
      scheduled := None;
      if ValidHistory(old(lastRolls)) {
        PushKeepsValid(old(lastRolls), result);
      }
    }

    /** Records a result: one more roll counted, the result in front of the
        history (the oldest entry evicted past five), the result shown, the
        statistics persisted and re-rendered. */
    method ShowResult(result: int)
      requires Valid()
      modifies this`totalRolls, this`lastRolls, this`resultText, this`resultPop, this`face,
               this`totalText, this`recentText, store`items
      ensures Valid()
      ensures totalRolls == old(totalRolls) + 1
      ensures lastRolls == Push(old(lastRolls), result)
      ensures resultText == Decimal(result) && resultPop && face == Some(result)
      ensures store.items == if store.writable
                             then old(store.items)[StorageKey := Serialize(Stats(totalRolls, lastRolls))]
                             else old(store.items)
    {
      RecordResult(result);
      SaveToStorage();
      UpdateDisplay();
    }

    /** Counts the roll, puts `result` in front of the history (`unshift`),
        dropping the last entry when there are now more than five (`pop`), and
        shows the result on the die and in the result element. */
    method RecordResult(result: int)
      modifies this`totalRolls, this`lastRolls, this`resultText, this`resultPop, this`face
      ensures totalRolls == old(totalRolls) + 1
      ensures lastRolls == Push(old(lastRolls), result)
      ensures resultText == Decimal(result) && resultPop && face == Some(result)
    {
      totalRolls := totalRolls + 1;
      resultText := Decimal(result);
      resultPop := true;
      face := Some(result);
      lastRolls := [result] + lastRolls;
      if |lastRolls| > MaxHistory {
        lastRolls := lastRolls[..|lastRolls| - 1];
      }
    }

    /** Shows the counter as its decimal text and the first three results joined by ", ". */
    method UpdateDisplay()
      modifies this`totalText, this`recentText
      ensures totalText == Decimal(totalRolls) && recentText == RecentText(lastRolls)
      ensures Shown()
    {
      totalText := Decimal(totalRolls);
      recentText := RecentText(lastRolls);
    }

    /** Writes the statistics under the storage key; a failed write is
        swallowed and leaves storage as it was. */
    method SaveToStorage()
      modifies store`items
      ensures store.items == if store.writable
                             then old(store.items)[StorageKey := Serialize(Stats(totalRolls, lastRolls))]
                             else old(store.items)
    {
      var written := store.SetItem(StorageKey, Saved(Snapshot(Some(totalRolls), Some(lastRolls))));
    }

    /** Reads the statistics back: a missing, empty or unreadable item keeps
        the current values; a parsed record replaces them, each missing or
        falsy field by its default. */
    method LoadFromStorage()
      modifies this`totalRolls, this`lastRolls
      ensures Stats(totalRolls, lastRolls) == Restore(store.GetItem(StorageKey), old(Stats(totalRolls, lastRolls)))
    {
      var saved := store.GetItem(StorageKey);
      match saved
      case Saved(data) =>
        totalRolls := data.totalRolls.GetOr(0);
        lastRolls := data.lastRolls.GetOr([]);
      case _ =>
    }
  }

  /** A roll completed on one page, then the page reloaded on the same
      storage: the new widget starts from the statistics the old one ended with. */
  method ReloadAfterRoll(store: LocalStorage, draw: int) returns (before: TelegramDice, after: TelegramDice)
    requires store.writable && IsFace(draw)
    modifies store`items
    ensures before.lastRolls != [] && before.lastRolls[0] == draw
    ensures after.totalRolls == before.totalRolls && after.lastRolls == before.lastRolls
    ensures !after.isRolling
  {
    before := new TelegramDice(store);
    before.RollDice(draw);
    before.TimerFires();
    RestoreSerialize(Stats(before.totalRolls, before.lastRolls), Stats(0, []));
    after := new TelegramDice(store);
  }
}
