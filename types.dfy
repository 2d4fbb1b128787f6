/** The records of the game: meme images, caption cards, judge verdicts, users,
    theme packs, multiplayer players and rooms, and the solo game state. */
module Types {

  /** A value or its absence (`null`, `undefined` or an omitted optional field). */
  datatype Option<+T> = None | Some(value: T)

  /** Outcome of an operation that can throw: it returns a value or throws. */
  datatype Outcome<+T> = Returned(value: T) | Threw(error: Error)

  /** The exceptions the services throw. */
  datatype Error = NotLoggedIn

  datatype MemeImage = MemeImage(url: string, id: string, themeId: Option<string>)

  /** A caption. `isAi` is false when the source leaves the optional flag out;
      `ownerId` is set on cards played in a multiplayer room. */
  datatype CaptionCard = CaptionCard(id: string, text: string, isAi: bool, ownerId: Option<string>)

  /** The judge's verdict; `winner` is "user", "ai", "tie" or any other string. */
  datatype JudgeResult = JudgeResult(
    winner: string, userScore: int, aiScore: int, commentary: string, funniestCaption: string)

  datatype User = User(
    id: string, name: string, email: string, avatar: string, coins: int,
    unlockedThemes: seq<string>)

  datatype ThemePack = ThemePack(
    id: string, name: string, description: string, price: int, coverImage: string,
    imageIds: seq<string>)

  datatype Player = Player(
    id: string, name: string, avatar: string, score: int, isHost: bool, isReady: bool,
    currentCard: Option<CaptionCard>)

  datatype RoomStatus = Lobby | Playing | Voting | Leaderboard

  datatype Room = Room(
    id: string, code: string, hostId: string, players: seq<Player>, status: RoomStatus,
    currentRound: int, maxRounds: int, currentImage: Option<MemeImage>, themeId: string,
    roundCaptions: seq<CaptionCard>)

  datatype GameStatus = Idle | LoadingHand | Playing | CalculatingAi | Judging | Result

  datatype GameState = GameState(
    status: GameStatus, currentImage: Option<MemeImage>, userHand: seq<CaptionCard>,
    selectedCard: Option<CaptionCard>, aiCard: Option<CaptionCard>,
    roundResult: Option<JudgeResult>, totalUserScore: int, totalAiScore: int, roundCount: int)
}
