/** The multiplayer room state machine, LOBBY -> PLAYING -> VOTING -> PLAYING ... ->
    LEADERBOARD, as transitions on `Room` values, with the invariant the transitions
    keep and the image draw the room uses. The service that stores rooms and applies
    these transitions in place is `MockBackend.Backend`. */
module Rooms {
  import opened Types
  import Catalogue

  /** Index of the first element whose `key` is `id`, as `find` with an id test does. */
  function FindFirst<T>(s: seq<T>, key: T -> string, id: string): (r: Option<nat>)
    ensures r.Some? ==> r.value < |s| && key(s[r.value]) == id
                        && forall j :: 0 <= j < r.value ==> key(s[j]) != id
    ensures r.None? ==> forall j :: 0 <= j < |s| ==> key(s[j]) != id
  {
    if s == [] then None
    else if key(s[0]) == id then Some(0)
    else match FindFirst(s[1..], key, id)
      case None => None
      case Some(j) => Some(j + 1)
  }

  /** Index of the first player with the given id, as `players.find` does. */
  function FindPlayer(players: seq<Player>, id: string): (r: Option<nat>)
    ensures r.Some? ==> r.value < |players| && players[r.value].id == id
                        && forall j :: 0 <= j < r.value ==> players[j].id != id
    ensures r.None? ==> forall j :: 0 <= j < |players| ==> players[j].id != id
  {
    FindFirst(players, (p: Player) => p.id, id)
  }

  /** Index of the first card with the given id, as `roundCaptions.find` does. */
  function FindCard(cards: seq<CaptionCard>, id: string): (r: Option<nat>)
    ensures r.Some? ==> r.value < |cards| && cards[r.value].id == id
                        && forall j :: 0 <= j < r.value ==> cards[j].id != id
    ensures r.None? ==> forall j :: 0 <= j < |cards| ==> cards[j].id != id
  {
    FindFirst(cards, (c: CaptionCard) => c.id, id)
  }

  // ---------------------------------------------------------------------------
  // Transitions

  /** The seat a user takes in a room: a snapshot of the user's id, name and avatar. */
  function Seat(u: User, isHost: bool): Player {
    Player(u.id, u.name, u.avatar, 0, isHost, false, None)
  }

  /** The room `createRoom` stores: id and code both `roomId`, the creator as its host. */
  function NewRoom(roomId: string, themeId: string, u: User): Room {
    Room(roomId, roomId, u.id, [Seat(u, true)], Lobby, 1, 5, None, themeId, [])
  }

  /** The room after `u` joins it: unchanged when `u` already has a seat. */
  function Joined(room: Room, u: User): Room {
    if FindPlayer(room.players, u.id).Some? then room
    else room.(players := room.players + [Seat(u, false)])
  }

  /** The room after `startGame`, whatever its status and whoever asked. */
  function Started(room: Room, image: Option<MemeImage>): Room {
    room.(status := RoomStatus.Playing, currentImage := image)
  }

  /** The card `submitCard` deals for a player. */
  function PlayedCard(cardId: string, text: string, playerId: string): CaptionCard {
    CaptionCard(cardId, text, false, Some(playerId))
  }

  predicate AllSubmitted(players: seq<Player>) {
    forall i :: 0 <= i < |players| ==> players[i].currentCard.Some?
  }

  /** The room after `submitCard`: a known player's card is set and appended to the
      round's captions; then the room moves to VOTING if every player has a card. */
  function Submitted(room: Room, playerId: string, text: string, cardId: string): Room {
    var played :=
      match FindPlayer(room.players, playerId)
      case None => room
      case Some(i) =>
        var card := PlayedCard(cardId, text, playerId);
        room.(players := room.players[i := room.players[i].(currentCard := Some(card))],
              roundCaptions := room.roundCaptions + [card]);
    if AllSubmitted(played.players) then played.(status := Voting) else played
  }

  /** The player a vote for `cardId` credits: the owner of the first card with that id,
      when the card exists, its owner id is a non-empty string and that player is seated. */
  function Winner(room: Room, cardId: string): Option<nat> {
    match FindCard(room.roundCaptions, cardId)
    case None => None
    case Some(c) =>
      var owner := room.roundCaptions[c].ownerId;
      if owner.Some? && owner.value != "" then FindPlayer(room.players, owner.value) else None
  }

  function Credit(players: seq<Player>, w: Option<nat>): seq<Player> {
    if w.Some? && w.value < |players|
    then players[w.value := players[w.value].(score := players[w.value].score + 1)]
    else players
  }

  function ClearedCards(players: seq<Player>): seq<Player> {
    seq(|players|, i requires 0 <= i < |players| => players[i].(currentCard := None))
  }

  /** The room after `vote`: the winner scores, then the game ends or the next round
      starts with `image`. */
  function Voted(room: Room, cardId: string, image: Option<MemeImage>): Room {
    var players := Credit(room.players, Winner(room, cardId));
    if room.currentRound >= room.maxRounds then room.(players := players, status := Leaderboard)
    else room.(currentRound := room.currentRound + 1, status := RoomStatus.Playing, currentImage := image,
               roundCaptions := [], players := ClearedCards(players))
  }

  // ---------------------------------------------------------------------------
  // The room invariant

  predicate DistinctIds(players: seq<Player>) {
    forall i, j :: 0 <= i < j < |players| ==> players[i].id != players[j].id
  }

  /** The creator is seated and is the only player flagged as host. */
  predicate HostIsCreator(room: Room) {
    && FindPlayer(room.players, room.hostId).Some?
    && forall i :: 0 <= i < |room.players| ==>
         (room.players[i].isHost <==> room.players[i].id == room.hostId)
  }

  /** Every played card belongs to a seated player, and a player's current card is that player's own. */
  predicate CardsOwned(room: Room) {
    && (forall j :: 0 <= j < |room.roundCaptions| ==>
          room.roundCaptions[j].ownerId.Some?
          && FindPlayer(room.players, room.roundCaptions[j].ownerId.value).Some?)
    && (forall i :: 0 <= i < |room.players| && room.players[i].currentCard.Some? ==>
          room.players[i].currentCard.value.ownerId == Some(room.players[i].id))
  }

  predicate WellFormed(room: Room) {
    && room.id == room.code
    && 1 <= room.currentRound <= room.maxRounds
    && DistinctIds(room.players)
    && HostIsCreator(room)
    && CardsOwned(room)
    && forall i :: 0 <= i < |room.players| ==> room.players[i].score >= 0
  }

  /** A well-formed room has exactly one host, the creator. */
  lemma OneHost(room: Room) returns (h: nat)
    requires WellFormed(room)
    ensures h < |room.players| && room.players[h].isHost && room.players[h].id == room.hostId
    ensures forall i :: 0 <= i < |room.players| && room.players[i].isHost ==> i == h
  {
    h := FindPlayer(room.players, room.hostId).value;
  }

  // ---------------------------------------------------------------------------
  // Creating and joining

  lemma NewRoomWellFormed(roomId: string, themeId: string, u: User)
    ensures WellFormed(NewRoom(roomId, themeId, u))
  {
    var r := NewRoom(roomId, themeId, u);
    assert FindPlayer(r.players, u.id) == Some(0);
  }

  /** A join seats the user once: it leaves the room unchanged when the user is seated,
      and otherwise appends exactly one non-host seat with no score and no card. */
  lemma JoinSeatsOnce(room: Room, u: User)
    ensures FindPlayer(room.players, u.id).Some? ==> Joined(room, u) == room
    ensures FindPlayer(room.players, u.id).None? ==>
      Joined(room, u) == room.(players := room.players + [Seat(u, false)])
    ensures FindPlayer(Joined(room, u).players, u.id).Some?
  {
    if FindPlayer(room.players, u.id).None? {
      var ps := room.players + [Seat(u, false)];
      assert ps[|room.players|].id == u.id;
    }
  }

  /** Joining twice with the same identity is joining once. */
  lemma JoinIdempotent(room: Room, u: User)
    ensures Joined(Joined(room, u), u) == Joined(room, u)
  {
    JoinSeatsOnce(room, u);
  }

  lemma JoinKeepsWellFormed(room: Room, u: User)
    requires WellFormed(room)
    ensures WellFormed(Joined(room, u))
  {
    if FindPlayer(room.players, u.id).None? {
      var r := Joined(room, u);
      SeatedStaySeated(room.players, [Seat(u, false)]);
      assert r.players[|room.players|].id == u.id;
      assert u.id != room.hostId;
    }
  }

  /** Appending seats keeps every seated player findable. */
  lemma SeatedStaySeated(players: seq<Player>, more: seq<Player>)
    ensures forall id :: FindPlayer(players, id).Some? ==> FindPlayer(players + more, id).Some?
  {
    forall id | FindPlayer(players, id).Some?
      ensures FindPlayer(players + more, id).Some?
    {
      var k := FindPlayer(players, id).value;
      assert (players + more)[k].id == id;
    }
  }

  /** Seats that keep their ids keep every seated player findable. */
  lemma SameIdsSameSeats(players: seq<Player>, players': seq<Player>)
    requires |players'| == |players|
    requires forall i :: 0 <= i < |players| ==> players'[i].id == players[i].id
    ensures forall id :: FindPlayer(players', id) == FindPlayer(players, id)
  {
    forall id ensures FindPlayer(players', id) == FindPlayer(players, id) {
      SameIdsSameSeat(players, players', id);
    }
  }

  lemma {:induction false} SameIdsSameSeat(players: seq<Player>, players': seq<Player>, id: string)
    requires |players'| == |players|
    requires forall i :: 0 <= i < |players| ==> players'[i].id == players[i].id
    ensures FindPlayer(players', id) == FindPlayer(players, id)
    decreases |players|
  {
    if players != [] {
      assert players'[0].id == players[0].id;
      SameIdsSameSeat(players[1..], players'[1..], id);
    }
  }

  // ---------------------------------------------------------------------------
  // Starting

  /** `startGame` moves any room, in any status, to PLAYING with the drawn image. */
  lemma StartIgnoresStatus(room: Room, image: Option<MemeImage>)
    ensures Started(room, image).status == RoomStatus.Playing
    ensures Started(room, image).currentImage == image
    ensures Started(room, image).(status := room.status, currentImage := room.currentImage) == room
    ensures WellFormed(room) ==> WellFormed(Started(room, image))
  {
  }

  // ---------------------------------------------------------------------------
  // Submitting

  /** A known player's submission sets that player's card and appends it to the round's
      captions, one more caption per call; an unknown player's changes no seat and no
      caption. Everything but status, the seats and the captions is kept. */
  lemma SubmitPlaysOneCard(room: Room, playerId: string, text: string, cardId: string)
    ensures var r := Submitted(room, playerId, text, cardId);
      && r.(status := room.status, players := room.players, roundCaptions := room.roundCaptions) == room
      && |r.players| == |room.players|
      && match FindPlayer(room.players, playerId)
         case None =>
           r.players == room.players && r.roundCaptions == room.roundCaptions
         case Some(i) =>
           && r.roundCaptions == room.roundCaptions + [PlayedCard(cardId, text, playerId)]
           && r.players[i].currentCard == Some(PlayedCard(cardId, text, playerId))
           && r.players[i].(currentCard := room.players[i].currentCard) == room.players[i]
           && forall j :: 0 <= j < |room.players| && j != i ==> r.players[j] == room.players[j]
  {
  }

  /** After a submission the room is in VOTING exactly when every player has a card;
      otherwise its status is unchanged. */
  lemma SubmitVotesWhenAllPlayed(room: Room, playerId: string, text: string, cardId: string)
    ensures var r := Submitted(room, playerId, text, cardId);
      r.status == if AllSubmitted(r.players) then Voting else room.status
  {
  }

  /** A player who submits twice in a round leaves two captions: a one-player room ends
      the round with two captions for one player. */
  lemma ResubmitDuplicates(roomId: string, themeId: string, u: User, t1: string, c1: string, t2: string, c2: string)
    ensures var r := Submitted(Submitted(NewRoom(roomId, themeId, u), u.id, t1, c1), u.id, t2, c2);
      && |r.players| == 1
      && r.roundCaptions == [PlayedCard(c1, t1, u.id), PlayedCard(c2, t2, u.id)]
  {
    var r0 := NewRoom(roomId, themeId, u);
    assert FindPlayer(r0.players, u.id) == Some(0);
    var r1 := Submitted(r0, u.id, t1, c1);
    assert FindPlayer(r1.players, u.id) == Some(0);
  }

  lemma SubmitKeepsWellFormed(room: Room, playerId: string, text: string, cardId: string)
    requires WellFormed(room)
    ensures WellFormed(Submitted(room, playerId, text, cardId))
  {
    var r := Submitted(room, playerId, text, cardId);
    SubmitPlaysOneCard(room, playerId, text, cardId);
    SameIdsSameSeats(room.players, r.players);
  }

  // ---------------------------------------------------------------------------
  // Voting

  function TotalScore(players: seq<Player>): int {
    if players == [] then 0 else players[0].score + TotalScore(players[1..])
  }

  lemma {:induction false} CreditAddsOne(players: seq<Player>, w: nat)
    requires w < |players|
    ensures TotalScore(Credit(players, Some(w))) == TotalScore(players) + 1
  {
    var ps := Credit(players, Some(w));
    if w == 0 {
      assert ps[1..] == players[1..];
    } else {
      assert ps[1..] == Credit(players[1..], Some(w - 1));
      CreditAddsOne(players[1..], w - 1);
    }
  }

  lemma {:induction false} ClearedKeepsTotal(players: seq<Player>)
    ensures TotalScore(ClearedCards(players)) == TotalScore(players)
  {
    if players != [] {
      assert ClearedCards(players)[1..] == ClearedCards(players[1..]);
      ClearedKeepsTotal(players[1..]);
    }
  }

  /** A vote raises by one the score of at most one player, the owner of the voted
      card, and keeps every other score; so the scores together grow by at most one. */
  lemma VoteCreditsAtMostOne(room: Room, cardId: string, image: Option<MemeImage>)
    ensures var r := Voted(room, cardId, image);
      && |r.players| == |room.players|
      && (forall i :: 0 <= i < |room.players| ==>
            && r.players[i].id == room.players[i].id
            && r.players[i].score == room.players[i].score + (if Winner(room, cardId) == Some(i) then 1 else 0))
      && TotalScore(r.players) == TotalScore(room.players) + (if Winner(room, cardId).Some? then 1 else 0)
  {
    var w := Winner(room, cardId);
    var credited := Credit(room.players, w);
    if w.Some? {
      CreditAddsOne(room.players, w.value);
    }
    ClearedKeepsTotal(credited);
  }

  /** The credited player owns the voted card; in a well-formed room every card's owner
      with a non-empty id is seated, so such a vote always credits someone. */
  lemma WinnerOwnsCard(room: Room, cardId: string)
    ensures Winner(room, cardId).Some? ==>
      var c := FindCard(room.roundCaptions, cardId);
      c.Some? && room.roundCaptions[c.value].ownerId == Some(room.players[Winner(room, cardId).value].id)
    ensures WellFormed(room) && FindCard(room.roundCaptions, cardId).Some?
            && room.roundCaptions[FindCard(room.roundCaptions, cardId).value].ownerId != Some("")
            ==> Winner(room, cardId).Some?
  {
  }

  /** A vote for a card id no caption carries scores nobody, and the round still advances. */
  lemma VoteUnknownCardAdvances(room: Room, cardId: string, image: Option<MemeImage>)
    requires FindCard(room.roundCaptions, cardId).None?
    ensures var r := Voted(room, cardId, image);
      && (forall i :: 0 <= i < |room.players| ==> r.players[i].score == room.players[i].score)
      && (room.currentRound < room.maxRounds ==> r.currentRound == room.currentRound + 1 && r.status == RoomStatus.Playing)
      && (room.currentRound >= room.maxRounds ==> r.status == Leaderboard)
  {
    VoteCreditsAtMostOne(room, cardId, image);
  }

  /** After the last round a vote keeps the round's captions, so voting again for the
      same card credits its owner a second time. */
  lemma VoteAfterLastRoundScoresAgain(room: Room, cardId: string, image: Option<MemeImage>)
    requires room.currentRound >= room.maxRounds && Winner(room, cardId).Some?
    ensures var w := Winner(room, cardId).value;
      var again := Voted(Voted(room, cardId, image), cardId, image);
      && w < |room.players| && |again.players| == |room.players|
      && again.players[w].score == room.players[w].score + 2
  {
    var w := Winner(room, cardId);
    var once := Voted(room, cardId, image);
    assert once.roundCaptions == room.roundCaptions;
    SameIdsSameSeats(room.players, once.players);
    assert Winner(once, cardId) == w;
  }

  /** After the last round a vote only ends the game; before it, a vote starts the next
      round: one round later, PLAYING, the new image, no captions and no player holding a
      card, with the seats and scores kept. */
  lemma VoteAdvancesRound(room: Room, cardId: string, image: Option<MemeImage>)
    ensures var r := Voted(room, cardId, image);
      var credited := Credit(room.players, Winner(room, cardId));
      && (room.currentRound >= room.maxRounds ==>
            r == room.(players := credited, status := Leaderboard))
      && (room.currentRound < room.maxRounds ==>
            && r.currentRound == room.currentRound + 1
            && r.status == RoomStatus.Playing
            && r.currentImage == image
            && r.roundCaptions == []
            && |r.players| == |credited|
            && (forall i :: 0 <= i < |r.players| ==>
                  r.players[i].currentCard.None? && r.players[i].(currentCard := credited[i].currentCard) == credited[i])
            && r.(currentRound := room.currentRound, status := room.status, currentImage := room.currentImage,
                  roundCaptions := room.roundCaptions, players := room.players) == room)
  {
  }

  /** Crediting a player keeps the room invariant. */
  lemma CreditKeepsWellFormed(room: Room, w: Option<nat>)
    requires WellFormed(room)
    ensures WellFormed(room.(players := Credit(room.players, w)))
  {
    SameIdsSameSeats(room.players, Credit(room.players, w));
  }

  /** Starting the next round before the last keeps the room invariant. */
  lemma NextRoundKeepsWellFormed(room: Room, image: Option<MemeImage>)
    requires WellFormed(room) && room.currentRound < room.maxRounds
    ensures WellFormed(room.(currentRound := room.currentRound + 1, status := RoomStatus.Playing,
                             currentImage := image, roundCaptions := [], players := ClearedCards(room.players)))
  {
    SameIdsSameSeats(room.players, ClearedCards(room.players));
  }

  lemma VoteKeepsWellFormed(room: Room, cardId: string, image: Option<MemeImage>)
    requires WellFormed(room)
    ensures WellFormed(Voted(room, cardId, image))
  {
    var credited := room.(players := Credit(room.players, Winner(room, cardId)));
    CreditKeepsWellFormed(room, Winner(room, cardId));
    if room.currentRound < room.maxRounds {
      NextRoundKeepsWellFormed(credited, image);
    }
  }

  // ---------------------------------------------------------------------------
  // Drawing an image for a room

  /** `Math.floor(pick * n)` for `pick` in [0, 1): an index into a list of `n` items. */
  function PickIndex(pick: real, n: nat): (i: nat)
    requires 0.0 <= pick < 1.0 && n > 0
    ensures i < n
  {
    var x := pick * (n as real);
    assert 0.0 <= x < n as real;
    x.Floor
  }

  /** The images whose id is listed in `ids`, in image order. */
  function WithIds(images: seq<MemeImage>, ids: seq<string>): (pool: seq<MemeImage>)
    ensures forall m :: m in pool <==> m in images && m.id in ids
  {
    if images == [] then []
    else (if images[0].id in ids then [images[0]] else []) + WithIds(images[1..], ids)
  }

  /** The images a room of theme `themeId` draws from: those of its pack, or every image
      when no pack has that id. */
  function ImagePool(packs: seq<ThemePack>, images: seq<MemeImage>, themeId: string): seq<MemeImage> {
    var valid :=
      match Catalogue.FindPack(Catalogue.PackIds(packs), Some(themeId))
      case Some(k) => packs[k].imageIds
      case None => Catalogue.ImageIds(images);
    WithIds(images, valid)
  }

  /** `getRandomImage`: the pool's entry at `floor(pick * |pool|)`, `None` (undefined)
      when the pool is empty. */
  function DrawImage(packs: seq<ThemePack>, images: seq<MemeImage>, themeId: string, pick: real): Option<MemeImage>
    requires 0.0 <= pick < 1.0
  {
    var pool := ImagePool(packs, images, themeId);
    if pool == [] then None else Some(pool[PickIndex(pick, |pool|)])
  }

  /** The pool of a theme some pack has is the images whose ids that pack lists. */
  lemma PoolOfPack(packs: seq<ThemePack>, images: seq<MemeImage>, k: nat)
    requires k < |packs| && Catalogue.DistinctStrings(Catalogue.PackIds(packs))
    ensures ImagePool(packs, images, packs[k].id) == WithIds(images, packs[k].imageIds)
  {
    var ids := Catalogue.PackIds(packs);
    assert ids[k] == packs[k].id;
    assert Catalogue.FindPack(ids, Some(packs[k].id)) == Some(k);
  }

  /** With distinct image ids, the images listed by the ids of a theme's images are
      exactly the images of that theme. */
  lemma ThemePool(images: seq<MemeImage>, t: string)
    requires Catalogue.IdsDistinct(images)
    ensures forall m :: m in WithIds(images, Catalogue.ThemeImageIds(images, t)) <==> m in images && m.themeId == Some(t)
  {
    var ids := Catalogue.ThemeImageIds(images, t);
    forall m | m in images && m.id in ids ensures m.themeId == Some(t) {
      var j :| 0 <= j < |images| && images[j] == m;
      var i :| 0 <= i < |images| && images[i].id == m.id && images[i].themeId == Some(t);
      assert i == j;
    }
    forall m | m in images && m.themeId == Some(t) ensures m.id in ids {
      var j :| 0 <= j < |images| && images[j] == m;
      Catalogue.ThemeImageIdsContains(images, t, j);
    }
  }

  /** A draw from a non-empty pool yields one of its images. */
  lemma DrawFromPool(packs: seq<ThemePack>, images: seq<MemeImage>, themeId: string, pick: real)
    requires 0.0 <= pick < 1.0
    ensures var d := DrawImage(packs, images, themeId, pick);
      && (d.Some? <==> ImagePool(packs, images, themeId) != [])
      && (d.Some? ==> d.value in ImagePool(packs, images, themeId))
  {
  }

  /** In a consistent catalogue, the pool of a pack's theme is the images of that
      theme. */
  lemma PackPoolIsTheme(packs: seq<ThemePack>, images: seq<MemeImage>, k: nat)
    requires Catalogue.Consistent(packs, images) && k < |packs|
    ensures forall m :: m in ImagePool(packs, images, packs[k].id) <==> m in images && m.themeId == Some(packs[k].id)
  {
    PoolOfPack(packs, images, k);
    ThemePool(images, packs[k].id);
  }

  /** In a consistent catalogue, the draw for a pack's theme yields an image of that
      theme. */
  lemma DrawMatchesTheme(packs: seq<ThemePack>, images: seq<MemeImage>, k: nat, pick: real)
    requires 0.0 <= pick < 1.0
    requires Catalogue.Consistent(packs, images) && k < |packs|
    ensures var d := DrawImage(packs, images, packs[k].id, pick);
      d.Some? && d.value in images && d.value.themeId == Some(packs[k].id)
  {
    var t := packs[k].id;
    PackPoolIsTheme(packs, images, k);
    var x := packs[k].imageIds[0];
    assert x in Catalogue.ThemeImageIds(images, t);
    var i :| 0 <= i < |images| && images[i].id == x && images[i].themeId == Some(t);
    assert images[i] in ImagePool(packs, images, t);
    DrawFromPool(packs, images, t, pick);
  }

  /** A theme no pack has draws from the whole image database. */
  lemma DrawAnyForUnknownTheme(packs: seq<ThemePack>, images: seq<MemeImage>, themeId: string, pick: real)
    requires 0.0 <= pick < 1.0
    requires Catalogue.FindPack(Catalogue.PackIds(packs), Some(themeId)).None?
    ensures forall m :: m in ImagePool(packs, images, themeId) <==> m in images
    ensures images != [] ==> DrawImage(packs, images, themeId, pick).Some?
  {
    DrawFromPool(packs, images, themeId, pick);
    if images != [] {
      assert images[0] in ImagePool(packs, images, themeId);
    }
  }

  /** In a consistent catalogue every draw yields an image of the database, and an
      image of the room's theme whenever some pack has that theme. */
  lemma DrawnImage(packs: seq<ThemePack>, images: seq<MemeImage>, themeId: string, pick: real)
    requires 0.0 <= pick < 1.0 && Catalogue.Consistent(packs, images)
    ensures var d := DrawImage(packs, images, themeId, pick);
      && d.Some? && d.value in images
      && (themeId in Catalogue.PackIds(packs) ==> d.value.themeId == Some(themeId))
  {
    var ids := Catalogue.PackIds(packs);
    if themeId in ids {
      var k :| 0 <= k < |ids| && ids[k] == themeId;
      DrawMatchesTheme(packs, images, k, pick);
    } else {
      DrawAnyForUnknownTheme(packs, images, themeId, pick);
    }
  }
}
