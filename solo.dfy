/** The solo game against the AI: the state updaters of the app's solo screen, the
    image pool a player may draw from, and the handlers that write the state several
    times in a row while they wait for the caption generator and the judge, whose
    answers are parameters here. */
module SoloGame {
  import opened Types
  import Rooms
  import Catalogue

  // ---------------------------------------------------------------------------
  // Card ids

  /** The decimal digit for `d`. */
  function Digit(d: nat): char
    requires d < 10
  {
    (48 + d) as char
  }

  /** `${n}` for a non-negative integer such as `Date.now()`. */
  function Decimal(n: nat): (s: string)
    ensures 1 <= |s|
    ensures |s| == 1 <==> n < 10
  {
    if n < 10 then [Digit(n)] else Decimal(n / 10) + [Digit(n % 10)]
  }

  /** Different numbers print differently. */
  lemma {:induction false} DecimalInjective(m: nat, n: nat)
    ensures Decimal(m) == Decimal(n) ==> m == n
  {
    if Decimal(m) == Decimal(n) && m >= 10 && n >= 10 {
      var a, b := Decimal(m), Decimal(n);
      assert a[..|a| - 1] == Decimal(m / 10);
      assert b[..|b| - 1] == Decimal(n / 10);
      DecimalInjective(m / 10, n / 10);
      assert Digit(m % 10) == a[|a| - 1] == b[|b| - 1] == Digit(n % 10);
    }
  }

  /** The hand dealt for `texts`: one card per text, in order, id `user-<now>-<index>`. */
  function Hand(texts: seq<string>, now: nat): seq<CaptionCard> {
    seq(|texts|, i requires 0 <= i < |texts| =>
      CaptionCard("user-" + Decimal(now) + "-" + Decimal(i), texts[i], false, None))
  }

  /** The AI's card: id `ai-<now>`, flagged as the AI's. */
  function AiCard(text: string, now: nat): CaptionCard {
    CaptionCard("ai-" + Decimal(now), text, true, None)
  }

  lemma SamePrefix(p: string, a: string, b: string)
    requires p + a == p + b
    ensures a == b
  {
    assert a == (p + a)[|p|..];
    assert b == (p + b)[|p|..];
  }

  /** The hand holds one card per text, in order, none of them the AI's, and no two
      cards of a hand share an id. */
  lemma HandCardsDistinct(texts: seq<string>, now: nat)
    ensures |Hand(texts, now)| == |texts|
    ensures forall i :: 0 <= i < |texts| ==>
      Hand(texts, now)[i].text == texts[i] && !Hand(texts, now)[i].isAi
    ensures forall i, j :: 0 <= i < j < |texts| ==> Hand(texts, now)[i].id != Hand(texts, now)[j].id
  {
    var hand := Hand(texts, now);
    var p := "user-" + Decimal(now) + "-";
    forall i, j | 0 <= i < j < |texts|
      ensures hand[i].id != hand[j].id
    {
      assert hand[i].id == p + Decimal(i) && hand[j].id == p + Decimal(j);
      if hand[i].id == hand[j].id {
        SamePrefix(p, Decimal(i), Decimal(j));
        DecimalInjective(i, j);
      }
    }
  }

  /** The AI's card never shares an id with a card of a hand. */
  lemma AiCardNotInHand(texts: seq<string>, now: nat, aiText: string, later: nat)
    ensures forall i :: 0 <= i < |texts| ==> Hand(texts, now)[i].id != AiCard(aiText, later).id
  {
    forall i | 0 <= i < |texts|
      ensures Hand(texts, now)[i].id != AiCard(aiText, later).id
    {
      assert Hand(texts, now)[i].id[0] == 'u';
      assert AiCard(aiText, later).id[0] == 'a';
    }
  }

  // ---------------------------------------------------------------------------
  // State updaters

  /** The state the app opens with: idle, no image, no cards, no scores. */
  function Initial(): GameState {
    GameState(Idle, None, [], None, None, None, 0, 0, 0)
  }

  /** First write of `startGameWithImage`: loading a hand for `image`, with the
      previous round's selection, AI card and verdict cleared. */
  function Loading(s: GameState, image: Option<MemeImage>): GameState {
    s.(status := LoadingHand, currentImage := image, selectedCard := None, aiCard := None,
       roundResult := None)
  }

  /** Second write of `startGameWithImage`: the hand is dealt and the round counted. */
  function Dealt(s: GameState, hand: seq<CaptionCard>): GameState {
    s.(status := GameStatus.Playing, userHand := hand, roundCount := s.roundCount + 1)
  }

  /** `handleSelectCard`: the card becomes the selection, but only while playing. */
  function Selected(s: GameState, card: CaptionCard): GameState {
    if s.status == GameStatus.Playing then s.(selectedCard := Some(card)) else s
  }

  /** Whether `confirmSelection` goes ahead: a card is selected and an image is shown. */
  predicate CanConfirm(s: GameState) {
    s.selectedCard.Some? && s.currentImage.Some?
  }

  /** Last write of `confirmSelection`: the verdict is shown and the winner's total
      goes up by one; a tie or any other verdict scores nobody. */
  function Judged(s: GameState, result: JudgeResult): GameState {
    s.(status := Result, roundResult := Some(result),
       totalUserScore := if result.winner == "user" then s.totalUserScore + 1 else s.totalUserScore,
       totalAiScore := if result.winner == "ai" then s.totalAiScore + 1 else s.totalAiScore)
  }

  /** How many verdicts name `who` as the winner. */
  function Wins(results: seq<JudgeResult>, who: string): nat {
    if results == [] then 0
    else Wins(results[..|results| - 1], who) + (if results[|results| - 1].winner == who then 1 else 0)
  }

  /** The state after judging each verdict of `results` in turn. */
  function JudgedAll(s: GameState, results: seq<JudgeResult>): GameState {
    if results == [] then s else Judged(JudgedAll(s, results[..|results| - 1]), results[|results| - 1])
  }

  /** Over any run of rounds, each total grows by the number of rounds its side won,
      the two totals together by at most one per round, and the rest of the state
      is the last round's. */
  lemma {:induction false} TotalsCountWins(s: GameState, results: seq<JudgeResult>)
    ensures JudgedAll(s, results).totalUserScore == s.totalUserScore + Wins(results, "user")
    ensures JudgedAll(s, results).totalAiScore == s.totalAiScore + Wins(results, "ai")
    ensures Wins(results, "user") + Wins(results, "ai") <= |results|
    ensures JudgedAll(s, results).roundCount == s.roundCount
    ensures results != [] ==> JudgedAll(s, results).roundResult == Some(results[|results| - 1])
  {
    if results != [] {
      TotalsCountWins(s, results[..|results| - 1]);
    }
  }

  // ---------------------------------------------------------------------------
  // The image pool of `startNewRound`

  /** Whether a logged-in player whose unlocked themes are `themes` may get `m`: it has
      no theme (absent or empty), or its theme is unlocked. */
  predicate Unlocked(themes: seq<string>, m: MemeImage) {
    m.themeId.None? || m.themeId.value == "" || m.themeId.value in themes
  }

  /** `images.filter(img => !img.themeId || themes.includes(img.themeId))`. */
  function UnlockedImages(images: seq<MemeImage>, themes: seq<string>): (pool: seq<MemeImage>)
    ensures |pool| <= |images|
    ensures forall m :: m in pool <==> m in images && Unlocked(themes, m)
    ensures pool == [] <==> forall m :: m in images ==> !Unlocked(themes, m)
  {
    if images == [] then []
    else
      var rest := UnlockedImages(images[1..], themes);
      assert forall m :: m in images <==> m == images[0] || m in images[1..];
      if Unlocked(themes, images[0]) then [images[0]] + rest else rest
  }

  /** The pool `startNewRound` draws from: every image when nobody is logged in, and
      otherwise the images the player has unlocked. */
  function SoloPool(user: Option<User>, images: seq<MemeImage>): (pool: seq<MemeImage>)
    ensures user.None? ==> pool == images
    ensures user.Some? ==> forall m :: m in pool <==> m in images && Unlocked(user.value.unlockedThemes, m)
  {
    if user.None? then images else UnlockedImages(images, user.value.unlockedThemes)
  }

  /** A player who has unlocked nothing, facing images that all carry a theme, has an
      empty pool. */
  lemma NothingUnlockedNoPool(u: User, images: seq<MemeImage>)
    requires u.unlockedThemes == []
    requires forall i :: 0 <= i < |images| ==> images[i].themeId.Some? && images[i].themeId.value != ""
    ensures SoloPool(Some(u), images) == []
  {
    assert forall m :: m in images ==> !Unlocked(u.unlockedThemes, m);
  }

  /** A player with the starter theme unlocked always has an image to draw. */
  lemma StarterPoolNonEmpty(u: User)
    requires "starter" in u.unlockedThemes
    ensures SoloPool(Some(u), Catalogue.MemeImages()) != []
  {
    Catalogue.StarterImagesExist();
    UnlockedThemePoolNonEmpty(u, Catalogue.MemeImages(), "starter");
  }

  /** A player who has unlocked the theme of some image always has an image to draw. */
  lemma UnlockedThemePoolNonEmpty(u: User, images: seq<MemeImage>, t: string)
    requires t in u.unlockedThemes && Catalogue.ThemeImageIds(images, t) != []
    ensures SoloPool(Some(u), images) != []
  {
    var x := Catalogue.ThemeImageIds(images, t)[0];
    assert x in Catalogue.ThemeImageIds(images, t);
    var i :| 0 <= i < |images| && images[i].id == x && images[i].themeId == Some(t);
    assert Unlocked(u.unlockedThemes, images[i]);
  }

  // ---------------------------------------------------------------------------
  // Whole rounds

  /** A round played from any state: after the image is shown, the hand dealt, its
      `k`-th card selected and the selection confirmed, the round is counted once, the
      verdict is on screen, the selected card is that hand card, the AI's card is not
      in the hand, and the totals grew by at most one between them. */
  lemma PlayedRound(s: GameState, image: MemeImage, texts: seq<string>, now: nat, k: nat,
                    aiText: string, later: nat, result: JudgeResult)
    requires k < |texts|
    ensures
      var dealt := Dealt(Loading(s, Some(image)), Hand(texts, now));
      var chosen := Selected(dealt, dealt.userHand[k]);
      var judging := chosen.(status := Judging, aiCard := Some(AiCard(aiText, later)));
      var done := Judged(judging, result);
      && CanConfirm(chosen)
      && chosen.selectedCard == Some(Hand(texts, now)[k])
      && chosen.selectedCard.value.text == texts[k]
      && done.status == Result && done.roundResult == Some(result)
      && done.roundCount == s.roundCount + 1
      && done.currentImage == Some(image)
      && (forall i :: 0 <= i < |texts| ==> done.userHand[i].id != done.aiCard.value.id)
      && s.totalUserScore <= done.totalUserScore && s.totalAiScore <= done.totalAiScore
      && done.totalUserScore + done.totalAiScore <= s.totalUserScore + s.totalAiScore + 1
  {
    HandCardsDistinct(texts, now);
    AiCardNotInHand(texts, now, aiText, later);
  }

  /** Selecting does nothing unless a hand is being played, and then changes only the
      selection. */
  lemma SelectOnlyWhilePlaying(s: GameState, card: CaptionCard)
    ensures s.status != GameStatus.Playing ==> Selected(s, card) == s
    ensures Selected(s, card).(selectedCard := s.selectedCard) == s
    ensures s.status == GameStatus.Playing ==> Selected(s, card).selectedCard == Some(card)
  {
  }

  // ---------------------------------------------------------------------------
  // The solo screen

  class Solo {
    /** The state on screen. */
    var state: GameState
    /** Every state written so far, in order, the current one last. */
    ghost var shown: seq<GameState>
    /** `MEME_IMAGES`. */
    const images: seq<MemeImage>

    /** The game on first render, over an image database (in the app,
        `Catalogue.MemeImages()`). */
    constructor (images: seq<MemeImage>)
      ensures state == Initial() && shown == [Initial()]
      ensures this.images == images
    {
      state := Initial();
      shown := [Initial()];
      this.images := images;
    }

    /** `startGameWithImage`: shows `image` while the hand loads, then deals one card
        per generated text. `handTexts` stands for the caption generator's answer and
        `now` for `Date.now()`. */
    method StartGameWithImage(image: MemeImage, handTexts: seq<string>, now: nat)
      modifies this
      ensures state == Dealt(Loading(old(state), Some(image)), Hand(handTexts, now))
      ensures shown == old(shown) + [Loading(old(state), Some(image)), state]
    {
      state := Loading(state, Some(image));
      shown := shown + [state];
      state := Dealt(state, Hand(handTexts, now));
      shown := shown + [state];
    }

    /** `startNewRound`: draws from the player's pool; with an empty pool the image is
        undefined, so the loading state is written and the generator call then fails.
        `pick` stands for `Math.random()`. */
    method StartNewRound(user: Option<User>, pick: real, handTexts: seq<string>, now: nat)
      requires 0.0 <= pick < 1.0
      modifies this
      ensures var pool := SoloPool(user, images);
        && (pool == [] ==> state == Loading(old(state), None) && shown == old(shown) + [state])
        && (pool != [] ==>
              var image := pool[Rooms.PickIndex(pick, |pool|)];
              state == Dealt(Loading(old(state), Some(image)), Hand(handTexts, now))
              && shown == old(shown) + [Loading(old(state), Some(image)), state])
    {
      var pool := SoloPool(user, images);
      if pool == [] {
        state := Loading(state, None);
        shown := shown + [state];
        return;
      }
      var image := pool[Rooms.PickIndex(pick, |pool|)];
      StartGameWithImage(image, handTexts, now);
    }

    /** `handleSelectCard`. */
    method SelectCard(card: CaptionCard)
      modifies this
      ensures state == Selected(old(state), card)
      ensures shown == if old(state).status == GameStatus.Playing then old(shown) + [state] else old(shown)
    {
      if state.status != GameStatus.Playing {
        return;
      }
      state := state.(selectedCard := Some(card));
      shown := shown + [state];
    }

    /** `confirmSelection`: nothing without a selected card and an image; otherwise the
        AI's card is computed, then the verdict is shown and scored. `aiText` and
        `result` stand for the AI's caption and the judge's verdict, `now` for
        `Date.now()`. */
    method ConfirmSelection(aiText: string, result: JudgeResult, now: nat)
      modifies this
      ensures !CanConfirm(old(state)) ==> state == old(state) && shown == old(shown)
      ensures CanConfirm(old(state)) ==>
        var calculating := old(state).(status := CalculatingAi);
        var judging := calculating.(aiCard := Some(AiCard(aiText, now)), status := Judging);
        && state == Judged(judging, result)
        && shown == old(shown) + [calculating, judging, state]
    {
      if state.selectedCard.None? || state.currentImage.None? {
        return;
      }
      state := state.(status := CalculatingAi);
      shown := shown + [state];
      var aiCard := AiCard(aiText, now);
      state := state.(aiCard := Some(aiCard), status := Judging);
      shown := shown + [state];
      state := Judged(state, result);
      shown := shown + [state];
    }
  }
}
