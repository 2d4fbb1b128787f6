/** The theme catalogue: the four declared theme packs, the image database, and the
    loop that fills each pack's `imageIds` from the images' themes. */
module Catalogue {
  import opened Types

  /** The packs as declared, before population: each starts with no image ids. */
  function DeclaredPacks(): (ps: seq<ThemePack>)
    ensures |ps| == 4
    ensures PackIds(ps) == ["starter", "work", "animals", "tech"]
    ensures forall k :: 0 <= k < |ps| ==> ps[k].imageIds == []
  {
    [ ThemePack("starter", "Starter Pack", "The classics. Cats, weird stock photos, and chaos.", 0, "\U{1F921}", []),
      ThemePack("work", "Corporate Life", "Emails, meetings, and silent screaming.", 499, "\U{1F4BC}", []),
      ThemePack("animals", "Party Animals", "Cute but psycho pets.", 299, "\U{1F43E}", []),
      ThemePack("tech", "Silicon Valley", "Bugs, crypto, and broken wifi.", 399, "\U{1F4BB}", []) ]
  }

  /** An image record with exactly the given id, url and theme. */
  function Assign(id: string, url: string, themeId: string): (m: MemeImage)
    ensures m.id == id && m.url == url && m.themeId == Some(themeId)
  {
    MemeImage(url, id, Some(themeId))
  }

  function Photo(key: string): string {
    "https://images.unsplash.com/photo-" + key + "?auto=format&fit=crop&w=800&q=80"
  }

  /** The image database, in declaration order: the four commented groups of the
      declaration, concatenated. */
  function MemeImages(): seq<MemeImage> {
    StarterGroup() + WorkGroup() + TechGroup() + AnimalsGroup()
  }

  function StarterGroup(): seq<MemeImage> {
    [ Assign("1", Photo("1513360371669-4adf3dd7dff8"), "starter"),
      Assign("2", Photo("1543852786-1cf6624b9987"), "starter"),
      Assign("3", Photo("1583511655857-d19b40a7a54e"), "starter"),
      Assign("4", Photo("1485827404703-89b55fcc595e"), "tech"),
      Assign("5", Photo("1566492031773-4fbc7527e053"), "starter"),
      Assign("6", Photo("1500835556837-99ac94a94552"), "starter"),
      Assign("7", Photo("1524481905007-ea072534b820"), "starter"),
      Assign("8", Photo("1517849845537-4d257902454a"), "animals"),
      Assign("9", Photo("1535930749574-1399327ce78f"), "animals"),
      Assign("10", Photo("1494790108377-be9c29b29330"), "starter") ]
  }

  function WorkGroup(): seq<MemeImage> {
    [ Assign("11", Photo("1503023345313-0f0261c96ed0"), "work"),
      Assign("13", Photo("1504593811423-6dd665756598"), "work"),
      Assign("15", Photo("1525609004556-c46c7d6cf023"), "work"),
      Assign("16", Photo("1472099645785-5658abf4ff4e"), "work"),
      Assign("29", Photo("1516139008210-96e45dccd83b"), "work"),
      Assign("30", Photo("1499951360447-b19be8fe80f5"), "work"),
      Assign("34", Photo("1485965120184-e224f723d879"), "work"),
      Assign("38", Photo("1495366691023-cc4eadcc2d7e"), "work"),
      Assign("42", Photo("1498036882173-b41c28a8ba34"), "work") ]
  }

  function TechGroup(): seq<MemeImage> {
    [ Assign("20", Photo("1581091226825-a6a2a5aee158"), "tech"),
      Assign("28", Photo("1611564227353-b652761309af"), "tech"),
      Assign("36", Photo("1521038199265-bc482db0f923"), "tech"),
      Assign("48", Photo("1601758228041-f3b2795255f1"), "tech") ]
  }

  function AnimalsGroup(): seq<MemeImage> {
    [ Assign("18", Photo("1504199367641-aba8151af406"), "animals"),
      Assign("23", Photo("1516574187841-69202d57e200"), "animals"),
      Assign("25", Photo("1518020382113-a7e8fc38eac9"), "animals"),
      Assign("26", Photo("1537151608828-ea2b11777ee8"), "animals"),
      Assign("32", Photo("1529778873920-4da4926a7071"), "animals"),
      Assign("33", Photo("1533738363-b7f9aef128ce"), "animals"),
      Assign("44", Photo("1583337130417-3346a1be7dee"), "animals"),
      Assign("47", Photo("1574158622682-e40e69881006"), "animals") ]
  }

  function PackIds(ps: seq<ThemePack>): (ids: seq<string>)
    ensures |ids| == |ps| && forall k :: 0 <= k < |ps| ==> ids[k] == ps[k].id
  {
    if ps == [] then [] else [ps[0].id] + PackIds(ps[1..])
  }

  function ImageIds(images: seq<MemeImage>): (ids: seq<string>)
    ensures |ids| == |images| && forall i :: 0 <= i < |images| ==> ids[i] == images[i].id
  {
    if images == [] then [] else [images[0].id] + ImageIds(images[1..])
  }

  /** Index of the first pack whose id equals the theme, as `THEME_PACKS.find` does;
      an image without a theme matches no pack. */
  function FindPack(ids: seq<string>, themeId: Option<string>): (r: Option<nat>)
    ensures r.Some? ==> r.value < |ids| && themeId == Some(ids[r.value])
                        && forall j :: 0 <= j < r.value ==> themeId != Some(ids[j])
    ensures r.None? ==> forall j :: 0 <= j < |ids| ==> themeId != Some(ids[j])
  {
    if ids == [] then None
    else if themeId == Some(ids[0]) then Some(0)
    else match FindPack(ids[1..], themeId)
      case None => None
      case Some(j) => Some(j + 1)
  }

  /** The ids, in image order, that the population loop pushes into pack `k`. */
  function Routed(images: seq<MemeImage>, ids: seq<string>, k: nat): seq<string> {
    if images == [] then []
    else (if FindPack(ids, images[0].themeId) == Some(k) then [images[0].id] else [])
         + Routed(images[1..], ids, k)
  }

  lemma {:induction false} RoutedAppend(a: seq<MemeImage>, b: seq<MemeImage>, ids: seq<string>, k: nat)
    ensures Routed(a + b, ids, k) == Routed(a, ids, k) + Routed(b, ids, k)
  {
    if a == [] {
      assert a + b == b;
    } else {
      assert (a + b)[0] == a[0] && (a + b)[1..] == a[1..] + b;
      RoutedAppend(a[1..], b, ids, k);
    }
  }

  /** The ids, in image order, of the images whose theme is `t`. */
  function ThemeImageIds(images: seq<MemeImage>, t: string): (r: seq<string>)
    ensures forall x :: x in r ==> exists i :: 0 <= i < |images| && images[i].id == x && images[i].themeId == Some(t)
  {
    if images == [] then []
    else (if images[0].themeId == Some(t) then [images[0].id] else []) + ThemeImageIds(images[1..], t)
  }

  predicate DistinctStrings(s: seq<string>) {
    forall i, j :: 0 <= i < j < |s| ==> s[i] != s[j]
  }

  /** With distinct pack ids, the loop routes to pack `k` exactly the images whose
      theme is that pack's id, in image order. */
  lemma {:induction false} RoutedIsThemeFilter(images: seq<MemeImage>, ids: seq<string>, k: nat)
    requires DistinctStrings(ids) && k < |ids|
    ensures Routed(images, ids, k) == ThemeImageIds(images, ids[k])
  {
    if images != [] {
      var f := FindPack(ids, images[0].themeId);
      assert f == Some(k) <==> images[0].themeId == Some(ids[k]);
      RoutedIsThemeFilter(images[1..], ids, k);
    }
  }

  /** Sum over the first `n` packs of the number of ids routed to each. */
  function RoutedCount(images: seq<MemeImage>, ids: seq<string>, n: nat): nat {
    if n == 0 then 0 else RoutedCount(images, ids, n - 1) + |Routed(images, ids, n - 1)|
  }

  /** Number of images whose theme names some pack. */
  function MatchedCount(images: seq<MemeImage>, ids: seq<string>): nat {
    if images == [] then 0
    else (if FindPack(ids, images[0].themeId).Some? then 1 else 0) + MatchedCount(images[1..], ids)
  }

  /** 1 when `f` names one of the first `n` packs, else 0. */
  function HitBelow(f: Option<nat>, n: nat): nat {
    if f.Some? && f.value < n then 1 else 0
  }

  lemma {:induction false} RoutedCountCons(images: seq<MemeImage>, ids: seq<string>, n: nat)
    requires images != []
    ensures RoutedCount(images, ids, n)
            == RoutedCount(images[1..], ids, n) + HitBelow(FindPack(ids, images[0].themeId), n)
  {
    if n > 0 {
      var f := FindPack(ids, images[0].themeId);
      assert |Routed(images, ids, n - 1)|
             == (if f == Some(n - 1) then 1 else 0) + |Routed(images[1..], ids, n - 1)|;
      RoutedCountCons(images, ids, n - 1);
    }
  }

  /** Every image whose theme names a pack is pushed into exactly one pack, and every
      other image into none: the packs together receive one id per matched image. */
  lemma {:induction false} EachImageRoutedOnce(images: seq<MemeImage>, ids: seq<string>)
    ensures RoutedCount(images, ids, |ids|) == MatchedCount(images, ids)
  {
    if images == [] {
      ZeroRouted(ids, |ids|);
    } else {
      RoutedCountCons(images, ids, |ids|);
      EachImageRoutedOnce(images[1..], ids);
    }
  }

  lemma {:induction false} ZeroRouted(ids: seq<string>, n: nat)
    ensures RoutedCount([], ids, n) == 0
  {
    if n > 0 {
      ZeroRouted(ids, n - 1);
    }
  }

  /** The packs after the population loop over `images`. */
  function Populated(ps: seq<ThemePack>, images: seq<MemeImage>): (r: seq<ThemePack>)
    ensures |r| == |ps| && PackIds(r) == PackIds(ps)
  {
    seq(|ps|, k requires 0 <= k < |ps| =>
      ps[k].(imageIds := ps[k].imageIds + Routed(images, PackIds(ps), k)))
  }

  /** The packs after the loop has handled the images `done`: each declared pack
      extended by the ids routed to it. */
  predicate Filled(packs: seq<ThemePack>, declared: seq<ThemePack>, done: seq<MemeImage>, ids: seq<string>) {
    && |packs| == |declared|
    && forall p :: 0 <= p < |packs| ==>
         packs[p] == declared[p].(imageIds := declared[p].imageIds + Routed(done, ids, p))
  }

  /** The population loop: each image's id is pushed onto the first pack whose id is
      the image's theme. */
  method PopulatePacks(packs: array<ThemePack>, images: seq<MemeImage>)
    modifies packs
    ensures packs[..] == Populated(old(packs[..]), images)
  {
    ghost var declared := packs[..];
    // Pushing ids never changes a pack's own id, so the ids `find` compares with are
    // read once.
    var ids := PackIds(packs[..]);
    for i := 0 to |images|
      invariant Filled(packs[..], declared, images[..i], ids)
    {
      var k := FindPack(ids, images[i].themeId);
      ghost var before := packs[..];
      if k.Some? {
        packs[k.value] := packs[k.value].(imageIds := packs[k.value].imageIds + [images[i].id]);
      }
      FilledStep(before, declared, images, ids, i, k, packs[..]);
    }
    assert images[..|images|] == images;
  }

  /** One turn of the population loop keeps the packs filled. */
  lemma FilledStep(before: seq<ThemePack>, declared: seq<ThemePack>, images: seq<MemeImage>,
                   ids: seq<string>, i: nat, k: Option<nat>, after: seq<ThemePack>)
    requires i < |images| && k == FindPack(ids, images[i].themeId)
    requires Filled(before, declared, images[..i], ids)
    requires k.None? ==> after == before
    requires k.Some? ==> && k.value < |before|
                         && after == before[k.value := before[k.value].(imageIds := before[k.value].imageIds + [images[i].id])]
    ensures Filled(after, declared, images[..i + 1], ids)
  {
    PushRouted(images, ids, i, k);
    forall p | 0 <= p < |after|
      ensures after[p] == declared[p].(imageIds := declared[p].imageIds + Routed(images[..i + 1], ids, p))
    {
      if k == Some(p) {
        assert declared[p].imageIds + Routed(images[..i + 1], ids, p)
            == (declared[p].imageIds + Routed(images[..i], ids, p)) + [images[i].id];
      }
    }
  }

  /** Handling image `i` extends the ids routed to its pack by its id and no other. */
  lemma PushRouted(images: seq<MemeImage>, ids: seq<string>, i: nat, k: Option<nat>)
    requires i < |images| && k == FindPack(ids, images[i].themeId)
    ensures forall p: nat :: Routed(images[..i + 1], ids, p)
              == Routed(images[..i], ids, p) + (if k == Some(p) then [images[i].id] else [])
  {
    forall p: nat
      ensures Routed(images[..i + 1], ids, p)
              == Routed(images[..i], ids, p) + (if k == Some(p) then [images[i].id] else [])
    {
      PushRoutedTo(images, ids, i, p);
    }
  }

  lemma PushRoutedTo(images: seq<MemeImage>, ids: seq<string>, i: nat, p: nat)
    requires i < |images|
    ensures Routed(images[..i + 1], ids, p)
         == Routed(images[..i], ids, p) + (if FindPack(ids, images[i].themeId) == Some(p) then [images[i].id] else [])
  {
    assert images[..i + 1] == images[..i] + [images[i]];
    RoutedAppend(images[..i], [images[i]], ids, p);
    assert [images[i]][1..] == [];
  }

  /** The catalogue as the rest of the program sees it. */
  function ThemePacks(): seq<ThemePack> {
    Populated(DeclaredPacks(), MemeImages())
  }


  // ---------------------------------------------------------------------------
  // Facts about the concrete catalogue. Each is proved group by group, so that no
  // single proof has to evaluate the whole database.

  /** No two of the images share an id. */
  predicate IdsDistinct(images: seq<MemeImage>) {
    forall i, j :: 0 <= i < j < |images| ==> images[i].id != images[j].id
  }

  /** No image of `a` shares its id with an image of `b`. */
  predicate IdsApart(a: seq<MemeImage>, b: seq<MemeImage>) {
    forall i, j :: 0 <= i < |a| && 0 <= j < |b| ==> a[i].id != b[j].id
  }

  lemma JoinDistinct(a: seq<MemeImage>, b: seq<MemeImage>)
    requires IdsDistinct(a) && IdsDistinct(b) && IdsApart(a, b)
    ensures IdsDistinct(a + b)
  {
  }

  lemma JoinApart(a: seq<MemeImage>, b: seq<MemeImage>, c: seq<MemeImage>)
    requires IdsApart(a, c) && IdsApart(b, c)
    ensures IdsApart(a + b, c)
  {
  }

  lemma StarterIdsDistinct() ensures IdsDistinct(StarterGroup()) {}
  lemma WorkIdsDistinct() ensures IdsDistinct(WorkGroup()) {}
  lemma TechIdsDistinct() ensures IdsDistinct(TechGroup()) {}
  lemma AnimalsIdsDistinct() ensures IdsDistinct(AnimalsGroup()) {}
  lemma StarterApartWork() ensures IdsApart(StarterGroup(), WorkGroup()) {}
  lemma StarterApartTech() ensures IdsApart(StarterGroup(), TechGroup()) {}
  lemma StarterApartAnimals() ensures IdsApart(StarterGroup(), AnimalsGroup()) {}
  lemma WorkApartTech() ensures IdsApart(WorkGroup(), TechGroup()) {}
  lemma WorkApartAnimals() ensures IdsApart(WorkGroup(), AnimalsGroup()) {}
  lemma TechApartAnimals() ensures IdsApart(TechGroup(), AnimalsGroup()) {}

  lemma StarterHasStarter() ensures ThemeImageIds(StarterGroup(), "starter") != [] {}
  lemma WorkHasWork() ensures ThemeImageIds(WorkGroup(), "work") != [] {}
  lemma TechHasTech() ensures ThemeImageIds(TechGroup(), "tech") != [] {}
  lemma AnimalsHasAnimals() ensures ThemeImageIds(AnimalsGroup(), "animals") != [] {}

  /** Four groups, each duplicate-free and no two sharing an id, make a
      duplicate-free database. */
  lemma GroupIdsDistinct(s: seq<MemeImage>, w: seq<MemeImage>, t: seq<MemeImage>, a: seq<MemeImage>)
    requires IdsDistinct(s) && IdsDistinct(w) && IdsDistinct(t) && IdsDistinct(a)
    requires IdsApart(s, w) && IdsApart(s, t) && IdsApart(s, a)
    requires IdsApart(w, t) && IdsApart(w, a) && IdsApart(t, a)
    ensures IdsDistinct(s + w + t + a)
  {
    JoinDistinct(s, w);
    JoinApart(s, w, t);
    JoinDistinct(s + w, t);
    JoinApart(s, w, a);
    JoinApart(s + w, t, a);
    JoinDistinct(s + w + t, a);
  }

  lemma {:induction false} ThemeImageIdsAppend(a: seq<MemeImage>, b: seq<MemeImage>, t: string)
    ensures ThemeImageIds(a + b, t) == ThemeImageIds(a, t) + ThemeImageIds(b, t)
  {
    if a == [] {
      assert a + b == b;
    } else {
      assert (a + b)[0] == a[0] && (a + b)[1..] == a[1..] + b;
      ThemeImageIdsAppend(a[1..], b, t);
    }
  }

  /** A theme with an image in one of four groups has an image in the database they
      make. */
  lemma ThemeInGroups(s: seq<MemeImage>, w: seq<MemeImage>, t: seq<MemeImage>, a: seq<MemeImage>, th: string)
    requires ThemeImageIds(s, th) != [] || ThemeImageIds(w, th) != []
          || ThemeImageIds(t, th) != [] || ThemeImageIds(a, th) != []
    ensures ThemeImageIds(s + w + t + a, th) != []
  {
    ThemeImageIdsAppend(s, w, th);
    ThemeImageIdsAppend(s + w, t, th);
    ThemeImageIdsAppend(s + w + t, a, th);
  }

  lemma FourIdsDistinct()
    ensures DistinctStrings(["starter", "work", "animals", "tech"])
  {
  }

  lemma {:induction false} ThemeImageIdsContains(images: seq<MemeImage>, t: string, j: nat)
    requires j < |images| && images[j].themeId == Some(t)
    ensures images[j].id in ThemeImageIds(images, t)
  {
    if j > 0 {
      ThemeImageIdsContains(images[1..], t, j - 1);
    }
  }

  /** Populating packs that start empty and have distinct ids leaves each holding
      exactly the ids of its theme's images. */
  lemma PopulatedAreThemeFilters(ps: seq<ThemePack>, images: seq<MemeImage>)
    requires DistinctStrings(PackIds(ps))
    requires forall k :: 0 <= k < |ps| ==> ps[k].imageIds == []
    ensures forall k :: 0 <= k < |ps| ==>
      Populated(ps, images)[k].imageIds == ThemeImageIds(images, ps[k].id)
  {
    forall k | 0 <= k < |ps|
      ensures Populated(ps, images)[k].imageIds == ThemeImageIds(images, ps[k].id)
    {
      RoutedIsThemeFilter(images, PackIds(ps), k);
    }
  }

  /** What drawing a room image relies on: pack ids and image ids are distinct, and
      each pack holds exactly, and at least one of, the ids of its theme's images;
      and there is an image to draw when no pack has the theme. */
  predicate Consistent(packs: seq<ThemePack>, images: seq<MemeImage>) {
    && images != []
    && DistinctStrings(PackIds(packs))
    && IdsDistinct(images)
    && (forall k :: 0 <= k < |packs| ==> packs[k].imageIds == ThemeImageIds(images, packs[k].id))
    && (forall k :: 0 <= k < |packs| ==> packs[k].imageIds != [])
  }

  /** Populating the four declared packs, which start empty, from images with distinct
      ids and at least one image of each theme yields a consistent catalogue. */
  lemma PopulatedConsistent(ps: seq<ThemePack>, images: seq<MemeImage>)
    requires PackIds(ps) == ["starter", "work", "animals", "tech"]
    requires forall k :: 0 <= k < |ps| ==> ps[k].imageIds == []
    requires IdsDistinct(images)
    requires ThemeImageIds(images, "starter") != [] && ThemeImageIds(images, "work") != []
    requires ThemeImageIds(images, "animals") != [] && ThemeImageIds(images, "tech") != []
    ensures Consistent(Populated(ps, images), images)
  {
    FourIdsDistinct();
    PopulatedAreThemeFilters(ps, images);
    var ids := PackIds(ps);
    assert forall k :: 0 <= k < |ps| ==> ps[k].id == ids[k];
  }

  /** No two images of the database share an id, so looking an image up by id finds
      that image. */
  lemma MemeImageIdsDistinct()
    ensures IdsDistinct(MemeImages())
  {
    StarterIdsDistinct(); WorkIdsDistinct(); TechIdsDistinct(); AnimalsIdsDistinct();
    StarterApartWork(); StarterApartTech(); StarterApartAnimals();
    WorkApartTech(); WorkApartAnimals(); TechApartAnimals();
    GroupIdsDistinct(StarterGroup(), WorkGroup(), TechGroup(), AnimalsGroup());
  }

  lemma StarterImagesExist()
    ensures ThemeImageIds(MemeImages(), "starter") != []
  {
    StarterHasStarter();
    ThemeInGroups(StarterGroup(), WorkGroup(), TechGroup(), AnimalsGroup(), "starter");
  }

  lemma WorkImagesExist()
    ensures ThemeImageIds(MemeImages(), "work") != []
  {
    WorkHasWork();
    ThemeInGroups(StarterGroup(), WorkGroup(), TechGroup(), AnimalsGroup(), "work");
  }

  lemma TechImagesExist()
    ensures ThemeImageIds(MemeImages(), "tech") != []
  {
    TechHasTech();
    ThemeInGroups(StarterGroup(), WorkGroup(), TechGroup(), AnimalsGroup(), "tech");
  }

  lemma AnimalsImagesExist()
    ensures ThemeImageIds(MemeImages(), "animals") != []
  {
    AnimalsHasAnimals();
    ThemeInGroups(StarterGroup(), WorkGroup(), TechGroup(), AnimalsGroup(), "animals");
  }

  /** The populated catalogue is consistent: after the loop every pack holds exactly
      the ids of its theme's images, in database order, and at least one of them. */
  lemma CatalogueConsistent()
    ensures Consistent(ThemePacks(), MemeImages())
  {
    MemeImageIdsDistinct();
    StarterImagesExist();
    WorkImagesExist();
    TechImagesExist();
    AnimalsImagesExist();
    PopulatedConsistent(DeclaredPacks(), MemeImages());
  }

  /** Population keeps the declared pack ids. */
  lemma ThemePackIds()
    ensures PackIds(ThemePacks()) == ["starter", "work", "animals", "tech"]
  {
  }
}
