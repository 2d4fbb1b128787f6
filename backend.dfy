/** The in-memory backend: the logged-in user, the table of rooms keyed by room code,
    the room service that reads and rewrites one room per call, and the shop's theme
    purchase. Reloading from and saving to browser storage is the identity here. */
module MockBackend {
  import opened Types
  import opened Rooms
  import Catalogue

  /** The themes after unlocking `t`: added at the end unless already unlocked. */
  function WithTheme(themes: seq<string>, t: string): seq<string> {
    if t in themes then themes else themes + [t]
  }

  /** Unlocking adds exactly `t` to the unlocked set, keeps the earlier order, never
      repeats an entry, and unlocking again changes nothing. */
  lemma UnlockIsSetInsert(themes: seq<string>, t: string)
    ensures forall x :: x in WithTheme(themes, t) <==> x in themes || x == t
    ensures WithTheme(themes, t)[..|themes|] == themes
    ensures |WithTheme(themes, t)| == |themes| + (if t in themes then 0 else 1)
    ensures Catalogue.DistinctStrings(themes) ==> Catalogue.DistinctStrings(WithTheme(themes, t))
    ensures WithTheme(WithTheme(themes, t), t) == WithTheme(themes, t)
  {
  }

  /** `players.forEach(p => p.currentCard = null)`: every player's card is cleared in
      place, one player at a time. */
  method ResetCards(players: seq<Player>) returns (cleared: seq<Player>)
    ensures |cleared| == |players|
    ensures forall i :: 0 <= i < |players| ==>
      cleared[i].currentCard.None? && cleared[i] == players[i].(currentCard := None)
  {
    cleared := players;
    var i := 0;
    while i < |cleared|
      invariant 0 <= i <= |cleared| == |players|
      invariant forall j :: 0 <= j < i ==> cleared[j] == players[j].(currentCard := None)
      invariant cleared[i..] == players[i..]
    {
      cleared := cleared[i := cleared[i].(currentCard := None)];
      i := i + 1;
    }
  }

  /** `players.every(p => p.currentCard !== null)`, true of no players at all. */
  method EverySubmitted(players: seq<Player>) returns (all: bool)
    ensures all <==> forall i :: 0 <= i < |players| ==> players[i].currentCard.Some?
  {
    all := true;
    var i := 0;
    while i < |players|
      invariant 0 <= i <= |players|
      invariant all <==> forall j :: 0 <= j < i ==> players[j].currentCard.Some?
    {
      if players[i].currentCard.None? {
        all := false;
      }
      i := i + 1;
    }
  }

  /** The vote's scoring step: the owner of the first card with id `cardId`, when it
      names a seated player, scores one point, in place. */
  method CreditWinner(room: Room, cardId: string) returns (players: seq<Player>)
    ensures players == Credit(room.players, Winner(room, cardId))
  {
    players := room.players;
    var c := FindCard(room.roundCaptions, cardId);
    if c.Some? && room.roundCaptions[c.value].ownerId.Some? && room.roundCaptions[c.value].ownerId.value != "" {
      var w := FindPlayer(players, room.roundCaptions[c.value].ownerId.value);
      if w.Some? {
        var i := w.value;
        players := players[i := players[i].(score := players[i].score + 1)];
      }
    }
  }

  /** Every stored room is well formed and stored under its own id. */
  ghost predicate ValidStore(rooms: map<string, Room>) {
    forall code :: code in rooms ==> rooms[code].id == code && WellFormed(rooms[code])
  }

  lemma StoreKeepsValid(rooms: map<string, Room>, code: string, room: Room)
    requires ValidStore(rooms) && room.id == code && WellFormed(room)
    ensures ValidStore(rooms[code := room])
  {
  }

  class Backend {
    var currentUser: Option<User>
    var rooms: map<string, Room>
    /** The catalogue the services read: `THEME_PACKS` after population, and `MEME_IMAGES`. */
    const packs: seq<ThemePack>
    const images: seq<MemeImage>

    /** Every stored room is well formed and stored under its own id, and the
        catalogue is consistent. */
    ghost predicate Valid()
      reads this
    {
      ValidStore(rooms) && Catalogue.Consistent(packs, images)
    }

    /** The state restored at start-up: the saved user, if any, and the saved rooms,
        over a consistent catalogue (`Catalogue.CatalogueConsistent` shows the module's
        own `THEME_PACKS` and `MEME_IMAGES` are one). */
    constructor (user: Option<User>, saved: map<string, Room>,
                 packs: seq<ThemePack>, images: seq<MemeImage>)
      requires Catalogue.Consistent(packs, images)
      ensures currentUser == user && rooms == saved
      ensures this.packs == packs && this.images == images
      ensures ValidStore(saved) ==> Valid()
    {
      currentUser := user;
      rooms := saved;
      this.packs := packs;
      this.images := images;
    }

    /** `roomService.createRoom`: throws when nobody is logged in; otherwise stores,
        under `roomId` (replacing any room already there), a new LOBBY room whose only
        player is the user, as host. */
    method CreateRoom(themeId: string, roomId: string) returns (r: Outcome<Room>)
      modifies this
      ensures currentUser == old(currentUser)
      ensures old(currentUser).None? ==> r == Threw(NotLoggedIn) && rooms == old(rooms)
      ensures old(currentUser).Some? ==>
        var u := old(currentUser).value;
        && r == Returned(NewRoom(roomId, themeId, u))
        && rooms == old(rooms)[roomId := r.value]
        && r.value.id == roomId && r.value.code == roomId && r.value.hostId == u.id
        && r.value.status == Lobby && r.value.currentRound == 1 && r.value.maxRounds == 5
        && r.value.currentImage.None? && r.value.roundCaptions == [] && r.value.themeId == themeId
        && r.value.players == [Player(u.id, u.name, u.avatar, 0, true, false, None)]
      ensures old(Valid()) ==> Valid()
    {
      if currentUser.None? {
        return Threw(NotLoggedIn);
      }
      var room := NewRoom(roomId, themeId, currentUser.value);
      if Valid() {
        NewRoomWellFormed(roomId, themeId, currentUser.value);
        StoreKeepsValid(rooms, roomId, room);
      }
      rooms := rooms[roomId := room];
      r := Returned(room);
    }

    /** `roomService.joinRoom`: throws when nobody is logged in; null when no room is
        stored under exactly `code`; otherwise seats the user unless already seated and
        returns the room. */
    method JoinRoom(code: string) returns (r: Outcome<Option<Room>>)
      modifies this
      ensures currentUser == old(currentUser)
      ensures old(currentUser).None? ==> r == Threw(NotLoggedIn) && rooms == old(rooms)
      ensures old(currentUser).Some? && code !in old(rooms) ==> r == Returned(None) && rooms == old(rooms)
      ensures old(currentUser).Some? && code in old(rooms) ==>
        && r == Returned(Some(Joined(old(rooms)[code], old(currentUser).value)))
        && rooms == old(rooms)[code := r.value.value]
      ensures old(Valid()) ==> Valid()
    {
      if currentUser.None? {
        return Threw(NotLoggedIn);
      }
      if code !in rooms {
        return Returned(None);
      }
      var u := currentUser.value;
      var room := rooms[code];
      if FindPlayer(room.players, u.id).None? {
        room := room.(players := room.players + [Seat(u, false)]);
        rooms := rooms[code := room];
      }
      if old(Valid()) {
        JoinKeepsWellFormed(old(rooms)[code], u);
        StoreKeepsValid(old(rooms), code, room);
      }
      r := Returned(Some(room));
    }

    /** `roomService.getRoom`: the room stored under exactly `roomId`, or null. */
    method GetRoom(roomId: string) returns (r: Option<Room>)
      ensures r.Some? <==> roomId in rooms
      ensures r.Some? ==> r.value == rooms[roomId]
    {
      r := if roomId in rooms then Some(rooms[roomId]) else None;
    }

    /** `roomService.startGame`: nothing for a missing room; otherwise PLAYING with an
        image drawn for the room's theme, whatever the status was and whoever calls.
        `pick` stands for `Math.random()`. */
    method StartGame(roomId: string, pick: real)
      requires 0.0 <= pick < 1.0
      modifies this
      ensures currentUser == old(currentUser)
      ensures roomId !in old(rooms) ==> rooms == old(rooms)
      ensures roomId in old(rooms) ==>
        var room := old(rooms)[roomId];
        rooms == old(rooms)[roomId := Started(room, DrawImage(packs, images, room.themeId, pick))]
      ensures old(Valid()) ==> Valid()
      ensures old(Valid()) && roomId in old(rooms) ==>
        var themeId := old(rooms)[roomId].themeId;
        var image := rooms[roomId].currentImage;
        && image.Some? && image.value in images
        && (themeId in Catalogue.PackIds(packs) ==> image.value.themeId == Some(themeId))
    {
      if roomId in rooms {
        var room := rooms[roomId];
        room := room.(status := RoomStatus.Playing);
        room := room.(currentImage := DrawImage(packs, images, room.themeId, pick));
        if old(Valid()) {
          DrawnImage(packs, images, room.themeId, pick);
          StartIgnoresStatus(old(rooms)[roomId], room.currentImage);
          StoreKeepsValid(old(rooms), roomId, room);
        }
        rooms := rooms[roomId := room];
      }
    }

    /** `roomService.submitCard`: nothing for a missing room; otherwise a seated player's
        card is set and appended to the round's captions (again on every re-submission),
        and the room moves to VOTING once every player holds a card. `cardId` stands for
        the random card id. */
    method SubmitCard(roomId: string, playerId: string, text: string, cardId: string)
      modifies this
      ensures currentUser == old(currentUser)
      ensures roomId !in old(rooms) ==> rooms == old(rooms)
      ensures roomId in old(rooms) ==>
        rooms == old(rooms)[roomId := Submitted(old(rooms)[roomId], playerId, text, cardId)]
      ensures old(Valid()) ==> Valid()
    {
      if roomId !in rooms {
        return;
      }
      var room := rooms[roomId];
      ghost var before := room;
      var found := FindPlayer(room.players, playerId);
      if found.Some? {
        var i := found.value;
        var card := PlayedCard(cardId, text, playerId);
        room := room.(players := room.players[i := room.players[i].(currentCard := Some(card))]);
        room := room.(roundCaptions := room.roundCaptions + [card]);
      }
      var allSubmitted := EverySubmitted(room.players);
      assert allSubmitted == AllSubmitted(room.players);
      if allSubmitted {
        room := room.(status := Voting);
      }
      assert room == Submitted(before, playerId, text, cardId);
      if old(Valid()) {
        SubmitKeepsWellFormed(old(rooms)[roomId], playerId, text, cardId);
        StoreKeepsValid(old(rooms), roomId, room);
      }
      rooms := rooms[roomId := room];
    }

    /** `roomService.vote`: nothing for a missing room; otherwise the owner of the voted
        card, if any, scores one point, and then the game ends after the last round or
        the next round starts with a fresh image, no captions and no cards in hand.
        `pick` stands for `Math.random()`. */
    method Vote(roomId: string, cardId: string, pick: real)
      requires 0.0 <= pick < 1.0
      modifies this
      ensures currentUser == old(currentUser)
      ensures roomId !in old(rooms) ==> rooms == old(rooms)
      ensures roomId in old(rooms) ==>
        var room := old(rooms)[roomId];
        rooms == old(rooms)[roomId := Voted(room, cardId, DrawImage(packs, images, room.themeId, pick))]
      ensures old(Valid()) ==> Valid()
    {
      if roomId !in rooms {
        return;
      }
      var room := rooms[roomId];
      var players := CreditWinner(room, cardId);
      var image := DrawImage(packs, images, room.themeId, pick);
      if room.currentRound >= room.maxRounds {
        room := room.(players := players, status := Leaderboard);
      } else {
        var cleared := ResetCards(players);
        assert cleared == ClearedCards(players);
        room := room.(currentRound := room.currentRound + 1, status := RoomStatus.Playing,
                      currentImage := image, roundCaptions := [], players := cleared);
      }
      assert room == Voted(old(rooms)[roomId], cardId, image);
      if old(Valid()) {
        VoteKeepsWellFormed(old(rooms)[roomId], cardId, image);
        StoreKeepsValid(old(rooms), roomId, room);
      }
      rooms := rooms[roomId := room];
    }

    /** `shopService.buyTheme`: false when nobody is logged in or no pack has that id;
        otherwise the theme is unlocked for the user (once) and the purchase succeeds. */
    method BuyTheme(themeId: string) returns (ok: bool)
      modifies this
      ensures rooms == old(rooms)
      ensures ok <==> old(currentUser).Some? && themeId in Catalogue.PackIds(packs)
      ensures !ok ==> currentUser == old(currentUser)
      ensures ok ==>
        var u := old(currentUser).value;
        currentUser == Some(u.(unlockedThemes := WithTheme(u.unlockedThemes, themeId)))
    {
      if currentUser.None? {
        return false;
      }
      var pack := Catalogue.FindPack(Catalogue.PackIds(packs), Some(themeId));
      if pack.None? {
        return false;
      }
      var u := currentUser.value;
      if themeId !in u.unlockedThemes {
        currentUser := Some(u.(unlockedThemes := u.unlockedThemes + [themeId]));
      }
      return true;
    }
  }
}
