# What Do You Meme — room engine, theme catalogue and solo rounds in Dafny

This project models the game logic of "What Do You Meme", a browser party game where
players caption meme images. The model has three parts:

- **The in-memory backend** (`MockBackend.Backend`, backend.dfy). It is a class that holds
  the logged-in user and the table of multiplayer rooms, keyed by room code. Its methods
  are the room service's create, join, get, start, submit-card and vote operations and the
  shop's theme purchase. Create, join, start, submit-card and vote each rewrite one
  stored room, and each is proved equal to a transition function on `Room` values
  (module `Rooms`, rooms.dfy). Get only reads the table. The purchase rewrites only the
  logged-in user, through `MockBackend.WithTheme` on the list of unlocked themes. The lemmas
  about those functions state the room state machine (LOBBY → PLAYING → VOTING → PLAYING
  … → LEADERBOARD), its frame conditions, and a room invariant that every operation keeps:
  ids equal codes, the round is within bounds, player ids are distinct, the creator is
  the only host, every card belongs to a seated player, and scores are non-negative.
- **The theme catalogue** (`Catalogue`, catalogue.dfy). It holds the four declared packs,
  the 31-image database, and the population loop that pushes each image id into the pack
  of its theme. The loop is a method over an `array` of packs, proved against a
  specification function. Lemmas prove that the concrete catalogue is consistent: pack
  ids and image ids are distinct, every pack holds exactly the ids of its theme's images,
  and no pack is empty. The backend is built over any consistent catalogue, and with one a
  room's image draw always returns an image, of the room's theme when a pack has it.
- **The solo game** (`SoloGame`, solo.dfy). It models the solo screen's state updaters as
  functions on `GameState`, and the handlers that write the state several times in a row
  as methods of the class `SoloGame.Solo`. A ghost field `shown` records every state those
  handlers write. The module also models the image pool a logged-in player may draw from.

Randomness, clocks and the AI are parameters. A `pick: real` in [0, 1) stands for
`Math.random()`, and the image index is `floor(pick * n)`. `now: nat` stands for
`Date.now()`. Room ids and card ids are passed in. The caption generator's texts, the
AI's caption and the judge's verdict are also passed in.

The model follows the code where the code is loose:
- `startGame` checks neither the caller nor the status.
- A player who re-submits appends a second caption.
- `vote` advances the round even for a card id no caption carries.
- After the last round `vote` sets LEADERBOARD but keeps the round's captions, so a
  second vote for the same card credits its owner again.
- Room codes are looked up exactly as given, with no case folding.
- `createRoom` replaces a room already stored under the same id.
- `every` over no players is true, so a room with no players goes to VOTING.
- A card owner of `""` is falsy, so that owner scores nothing.

The lemmas `Rooms.StartIgnoresStatus`, `Rooms.ResubmitDuplicates`,
`Rooms.VoteUnknownCardAdvances` and `Rooms.VoteAfterLastRoundScoresAgain` state the
first four of these outright.

## Model

| member | source | states |
|---|---|---|
| MockBackend.Backend.constructor | services/mockBackend.ts:19-45 | the backend starts with the restored user and rooms over a consistent catalogue (in the app `THEME_PACKS` after population and `MEME_IMAGES`), and is valid when the restored rooms are |
| MockBackend.Backend.CreateRoom | services/mockBackend.ts:125-154 | throws NotLoggedIn without a user and stores nothing; otherwise stores under `roomId` (replacing any room there) a LOBBY room with id = code = roomId, round 1 of 5, no image, no captions, host = the user, and the user as its only player: host, score 0, not ready, no card; keeps the store invariant |
| MockBackend.Backend.JoinRoom | services/mockBackend.ts:156-179 | throws NotLoggedIn without a user; returns null and changes nothing when no room is stored under exactly `code`; otherwise stores and returns `Rooms.Joined` of that room; keeps the store invariant |
| MockBackend.Backend.GetRoom | services/mockBackend.ts:182-185 | returns the room stored under exactly `roomId`, or None when there is none |
| MockBackend.Backend.StartGame | services/mockBackend.ts:187-195 | a missing room changes nothing; otherwise the stored room becomes `Rooms.Started` with the image drawn for its theme, whatever its status; that image is always present, is from the database, and has the room's theme when a pack has that theme; keeps the store invariant |
| MockBackend.Backend.SubmitCard | services/mockBackend.ts:197-214 | a missing room changes nothing; otherwise the stored room becomes `Rooms.Submitted`; keeps the store invariant |
| MockBackend.Backend.Vote | services/mockBackend.ts:216-239 | a missing room changes nothing; otherwise the stored room becomes `Rooms.Voted` with the image drawn for its theme; keeps the store invariant |
| MockBackend.CreditWinner | services/mockBackend.ts:222-226 | the in-place score bump yields `Rooms.Credit` of the players for `Rooms.Winner` of the card |
| MockBackend.ResetCards | services/mockBackend.ts:236 | the `forEach` clears every player's card and changes nothing else of any player |
| MockBackend.EverySubmitted | services/mockBackend.ts:209 | true exactly when every player holds a card, so true for no players |
| MockBackend.StoreKeepsValid | services/mockBackend.ts:151 | storing a well-formed room under its own id keeps every stored room well formed and under its own id |
| MockBackend.Backend.BuyTheme | services/mockBackend.ts:104-121 | succeeds exactly when a user is logged in and some pack has that id; on success the theme is unlocked through `WithTheme`, otherwise the user is unchanged; rooms are untouched |
| MockBackend.UnlockIsSetInsert | services/mockBackend.ts:114-119 | unlocking adds exactly the theme to the unlocked set, keeps earlier entries in order, adds one entry only if it was missing, keeps entries distinct, and unlocking again changes nothing |
| Rooms.FindFirst | services/mockBackend.ts:165 | the index of the first element whose key is the id, or None exactly when no element has it |
| Rooms.FindPlayer | services/mockBackend.ts:165 | the index of the first player with that id, or None exactly when no player has it |
| Rooms.FindCard | services/mockBackend.ts:222 | the index of the first caption with that id, or None exactly when no caption has it |
| Rooms.NewRoomWellFormed | services/mockBackend.ts:130-149 | a freshly created room satisfies the room invariant |
| Rooms.OneHost | services/mockBackend.ts:133-139 | a well-formed room has exactly one player flagged host, and that player is the creator |
| Rooms.JoinSeatsOnce | services/mockBackend.ts:165-176 | a seated user's join leaves the room unchanged; otherwise exactly one seat is appended (not host, score 0, no card); afterwards the user is seated |
| Rooms.JoinIdempotent | services/mockBackend.ts:165-176 | joining twice is joining once |
| Rooms.JoinKeepsWellFormed | services/mockBackend.ts:165-176 | joining keeps the invariant: player ids stay distinct and the creator stays the only host |
| Rooms.SeatedStaySeated | services/mockBackend.ts:166 | appending seats keeps every seated player findable |
| Rooms.SameIdsSameSeats | services/mockBackend.ts:203-205 | seats that keep their ids give the same lookup result for every id |
| Rooms.SameIdsSameSeat | services/mockBackend.ts:203-205 | seats that keep their ids give the same lookup result for one id |
| Rooms.StartIgnoresStatus | services/mockBackend.ts:190-193 | start sets PLAYING and the image from any status, changes nothing else, and keeps the invariant |
| Rooms.SubmitPlaysOneCard | services/mockBackend.ts:202-206 | a known player's card is set (owner = that player) and appended, one caption per call, other seats untouched; an unknown player changes no seat and no caption |
| Rooms.SubmitVotesWhenAllPlayed | services/mockBackend.ts:209-212 | after a submission the status is VOTING if every player holds a card, and otherwise is unchanged |
| Rooms.ResubmitDuplicates | services/mockBackend.ts:204-205 | a lone player who submits twice leaves two captions in the round |
| Rooms.SubmitKeepsWellFormed | services/mockBackend.ts:197-214 | a submission keeps the room invariant |
| Rooms.CreditAddsOne | services/mockBackend.ts:225 | crediting a seated winner raises the total score by exactly one |
| Rooms.ClearedKeepsTotal | services/mockBackend.ts:236 | clearing cards keeps the total score |
| Rooms.VoteCreditsAtMostOne | services/mockBackend.ts:222-226 | a vote raises the score of at most one player, by one, and only the owner of the voted card; every other score is unchanged |
| Rooms.WinnerOwnsCard | services/mockBackend.ts:222-225 | the credited player owns the voted card; in a well-formed room a voted card whose owner id is non-empty always credits someone |
| Rooms.VoteUnknownCardAdvances | services/mockBackend.ts:222-237 | a vote for an unknown card id scores nobody and still advances the round or ends the game |
| Rooms.VoteAfterLastRoundScoresAgain | services/mockBackend.ts:222-231 | after the last round, voting twice for a card whose owner is seated raises that owner's score by two, because the captions are kept |
| Rooms.VoteAdvancesRound | services/mockBackend.ts:229-237 | at or past the last round a vote only sets LEADERBOARD; before it the round goes up by one, status PLAYING, new image, no captions, no cards held, seats and scores kept, nothing else changed |
| Rooms.CreditKeepsWellFormed | services/mockBackend.ts:222-226 | the score bump keeps the room invariant |
| Rooms.NextRoundKeepsWellFormed | services/mockBackend.ts:229-237 | ending the game or starting the next round keeps the room invariant |
| Rooms.VoteKeepsWellFormed | services/mockBackend.ts:216-239 | a vote keeps the room invariant |
| Rooms.PickIndex | services/mockBackend.ts:246 | `floor(pick * n)` for pick in [0, 1) is a valid index |
| Rooms.WithIds | services/mockBackend.ts:245 | the filtered pool holds exactly the images whose id is listed |
| Rooms.PoolOfPack | services/mockBackend.ts:243-245 | a theme that names a pack draws from the images that pack lists |
| Rooms.ThemePool | services/mockBackend.ts:245 | with distinct image ids, listing a theme's image ids selects exactly that theme's images |
| Rooms.DrawFromPool | services/mockBackend.ts:246 | a draw yields an image of the pool, and yields undefined only for an empty pool |
| Rooms.PackPoolIsTheme | services/mockBackend.ts:242-245 | where a pack lists exactly its theme's image ids, its pool is exactly its theme's images |
| Rooms.DrawMatchesTheme | services/mockBackend.ts:242-247 | where a non-empty pack lists exactly its theme's images, the draw is one of those images |
| Rooms.DrawAnyForUnknownTheme | services/mockBackend.ts:243-246 | a theme no pack has draws from the whole image database, and finds an image when there is one |
| Rooms.DrawnImage | services/mockBackend.ts:242-247 | with a consistent catalogue every draw yields a database image, and one of the room's theme whenever a pack has that theme |
| Catalogue.DeclaredPacks | constants.ts:5-38 | four packs, ids starter, work, animals, tech in that order, each with no image ids |
| Catalogue.Assign | constants.ts:41 | the image has exactly the given id, url and theme |
| Catalogue.PackIds | constants.ts:85 | the pack ids, pointwise |
| Catalogue.ImageIds | services/mockBackend.ts:244 | the image ids, pointwise, as the fallback `map` of the draw lists them |
| Catalogue.FindPack | constants.ts:85 | the index of the first pack whose id equals the theme, or None exactly when none does (an absent theme matches none) |
| Catalogue.RoutedAppend | constants.ts:84-88 | routing a concatenation routes each part in turn |
| Catalogue.ThemeImageIds | constants.ts:83-88 | every listed id is the id of an image of that theme |
| Catalogue.RoutedIsThemeFilter | constants.ts:83-88 | with distinct pack ids, the loop pushes onto pack k exactly the ids of the images whose theme is pack k's id, in image order |
| Catalogue.RoutedCountCons | constants.ts:84-87 | one more image adds to the packs' id counts one id exactly when its theme names a pack |
| Catalogue.EachImageRoutedOnce | constants.ts:84-87 | the packs together receive exactly one id per image whose theme names a pack |
| Catalogue.ZeroRouted | constants.ts:84-87 | no images push no ids |
| Catalogue.Populated | constants.ts:83-88 | population keeps the number of packs and their ids |
| Catalogue.PopulatePacks | constants.ts:83-88 | the in-place loop leaves the array equal to the populated packs |
| Catalogue.PushRouted | constants.ts:84-87 | one loop step extends the routed ids of the image's pack by its id and leaves every other pack's ids unchanged |
| Catalogue.PushRoutedTo | constants.ts:84-87 | one loop step extends the ids routed to a given pack by the image's id exactly when the image's theme finds that pack |
| Catalogue.FilledStep | constants.ts:83-88 | one loop turn keeps the invariant that each pack is its declared self extended by the ids routed to it so far |
| Catalogue.JoinDistinct | constants.ts:44-80 | two duplicate-free image lists with no id in common make a duplicate-free list |
| Catalogue.JoinApart | constants.ts:44-80 | two lists that share no id with a third, joined, share no id with it |
| Catalogue.StarterIdsDistinct | constants.ts:45-55 | no two images of the starter group share an id |
| Catalogue.WorkIdsDistinct | constants.ts:56-65 | no two images of the work group share an id |
| Catalogue.TechIdsDistinct | constants.ts:66-70 | no two images of the tech group share an id |
| Catalogue.AnimalsIdsDistinct | constants.ts:71-79 | no two images of the animals group share an id |
| Catalogue.StarterApartWork | constants.ts:45-65 | no starter-group image shares an id with a work-group image |
| Catalogue.StarterApartTech | constants.ts:45-70 | no starter-group image shares an id with a tech-group image |
| Catalogue.StarterApartAnimals | constants.ts:45-79 | no starter-group image shares an id with an animals-group image |
| Catalogue.WorkApartTech | constants.ts:56-70 | no work-group image shares an id with a tech-group image |
| Catalogue.WorkApartAnimals | constants.ts:56-79 | no work-group image shares an id with an animals-group image |
| Catalogue.TechApartAnimals | constants.ts:66-79 | no tech-group image shares an id with an animals-group image |
| Catalogue.StarterHasStarter | constants.ts:45-55 | the starter group holds a starter image |
| Catalogue.WorkHasWork | constants.ts:56-65 | the work group holds a work image |
| Catalogue.TechHasTech | constants.ts:66-70 | the tech group holds a tech image |
| Catalogue.AnimalsHasAnimals | constants.ts:71-79 | the animals group holds an animals image |
| Catalogue.GroupIdsDistinct | constants.ts:44-80 | four duplicate-free groups, no two sharing an id, make a duplicate-free database |
| Catalogue.ThemeImageIdsAppend | constants.ts:83-88 | the ids of a theme's images in a concatenation are those of each part in turn |
| Catalogue.ThemeInGroups | constants.ts:44-80 | a theme with an image in one of four groups has one in the database they make |
| Catalogue.FourIdsDistinct | constants.ts:5-38 | the four declared pack ids are distinct |
| Catalogue.ThemeImageIdsContains | constants.ts:84-87 | an image of a theme has its id listed among that theme's ids |
| Catalogue.PopulatedAreThemeFilters | constants.ts:83-88 | populating packs that start empty and have distinct ids leaves each holding exactly the ids of its theme's images, in image order |
| Catalogue.PopulatedConsistent | constants.ts:5-88 | populating the four declared packs from images with distinct ids and an image of every theme yields a consistent catalogue |
| Catalogue.MemeImageIdsDistinct | constants.ts:44-80 | no two images of the database share an id |
| Catalogue.StarterImagesExist | constants.ts:44-80 | the database holds a starter image |
| Catalogue.WorkImagesExist | constants.ts:44-80 | the database holds a work image |
| Catalogue.TechImagesExist | constants.ts:44-80 | the database holds a tech image |
| Catalogue.AnimalsImagesExist | constants.ts:44-80 | the database holds an animals image |
| Catalogue.CatalogueConsistent | constants.ts:5-88 | after population the catalogue is consistent: pack ids and image ids are distinct, each pack holds exactly the ids of its theme's images in database order, and none is empty |
| Catalogue.ThemePackIds | constants.ts:5-38 | after population the pack ids are still starter, work, animals, tech |
| SoloGame.Decimal | App.tsx:106 | a number prints as at least one digit, and as one digit exactly below 10 |
| SoloGame.DecimalInjective | App.tsx:106 | different numbers print differently |
| SoloGame.SamePrefix | App.tsx:106 | ids that share a prefix and are equal have equal suffixes |
| SoloGame.HandCardsDistinct | App.tsx:105-108 | the dealt hand has one card per text, in order, none flagged as the AI's, and no two cards share an id |
| SoloGame.AiCardNotInHand | App.tsx:106-150 | the AI's card id never equals a hand card's id |
| SoloGame.TotalsCountWins | App.tsx:157-163 | over any run of verdicts, the user total grows by the user wins, the AI total by the AI wins (ties and other strings score nobody), the two together by at most one per round, and the round count is kept |
| SoloGame.UnlockedImages | App.tsx:129 | the filtered pool holds exactly the images with no theme, an empty theme or an unlocked theme, and is empty exactly when no image qualifies |
| SoloGame.SoloPool | App.tsx:127-130 | logged out the pool is every image; logged in it is exactly the unlocked images |
| SoloGame.NothingUnlockedNoPool | App.tsx:127-132 | a player who has unlocked nothing, facing images that all carry a theme, has an empty pool |
| SoloGame.StarterPoolNonEmpty | App.tsx:127-132 | with the starter theme unlocked the pool of the real database is non-empty |
| SoloGame.UnlockedThemePoolNonEmpty | App.tsx:127-132 | a player who has unlocked the theme of some image has a non-empty pool |
| SoloGame.PlayedRound | App.tsx:90-163 | a full round (show image, deal, select card k, confirm, judge) passes the confirm guard, selects hand card k with text k, counts the round once, shows the verdict, gives the AI a card not in the hand, and raises the totals by at most one between them |
| SoloGame.SelectOnlyWhilePlaying | App.tsx:136-139 | selecting leaves the state unchanged unless a hand is being played, and otherwise changes only the selection |
| SoloGame.Solo.constructor | App.tsx:26-36 | the screen starts idle with no image, no cards, no verdict and zero scores, over the given image database |
| SoloGame.Solo.StartGameWithImage | App.tsx:90-118 | first shows the image with the hand loading and the selection, AI card and verdict cleared, totals kept; then deals the hand and counts the round once |
| SoloGame.Solo.StartNewRound | App.tsx:120-134 | draws `floor(pick * n)` from the player's pool and starts the round with it; with an empty pool only the loading state with no image is written |
| SoloGame.Solo.SelectCard | App.tsx:136-139 | the selection is set only while playing; otherwise nothing is written |
| SoloGame.Solo.ConfirmSelection | App.tsx:141-164 | without a selected card or an image nothing is written; otherwise the states written are CALCULATING_AI, then JUDGING with the AI's card (flagged as the AI's), then RESULT with the verdict and tallied totals |

## Left out

- Browser storage: loading and saving (services/mockBackend.ts:19-45) are the identity over the in-memory user and rooms. Sharing rooms across browser tabs is storage I/O with no coordination and is not modelled. Every call reads and writes the same in-memory table.
- Interleaving of async calls: each service call and each state write runs to completion before the next. The solo handlers read the selection and image when they are called, and the updaters read the latest state. With one caller at a time these are the same state, so that distinction is not modelled.
- Generated values: `Math.random()` and `Date.now()` are parameters, and so are room ids and card ids. How a room id is cut from a random number is not modelled.
- `loginWithGoogle`, `parseJwt`, `loginMock`, `logout` and `getCurrentUser` are not part of this model. They decode tokens with browser functions or just set or read the current user, which the backend's constructor takes as given.
- SoloGame.Hand: one timestamp `now` stands for the `Date.now()` that the source calls once per card while building the hand, so all cards of a hand carry the same timestamp; the ids stay distinct either way because each ends in the card's index.
- The caption generator, the AI's caption and the judge are external AI calls. Only their answers enter the model, as parameters.
- The lobby screen's polling, its host and player-count gating, and its call to a room operation the service does not define are not part of this model. Neither is the JSX rendering, the challenge link or the URL parameters of the app.
- `startNewRound` clearing the challenge id and rewriting the URL is not modelled, because it is browser history only.
- The app's `isGeneratingHand` flag is not modelled, because it only drives a spinner. `isReady` and `coins` are carried in the records but never change in the modelled operations.
- The judge's `userScore` and `aiScore` are JavaScript numbers, which may be fractional; the model carries them as `int`, and no modelled operation reads them.
- Optional fields: an absent `isAi` is modelled as false, and an absent or null card, image, verdict or theme as `None`.
- SoloGame.Solo.StartNewRound: with an empty pool the source writes the loading state and then fails on the undefined image inside an async call. The model records the write and stops; the failure itself is not modelled.
- MockBackend.Backend.constructor: the catalogue is a parameter that must be consistent, rather than the module constants read directly; `Catalogue.CatalogueConsistent` proves the module's own catalogue meets that requirement. Likewise `SoloGame.Solo` takes its image database as a parameter.
- Catalogue.DeclaredPacks: names, descriptions, prices and cover emoji are carried as data but have no contract.
