/** Similar-album results (`AlbumsService`): the artist-overlap bonus added
    to an album pair's base similarity score, and the paging of a ranked
    list of similar items. The base score, the ranking and the name
    de-duplication (`DistinctNames`) come from code that is not part of this
    model and are inputs. */
module AlbumsService {
  import opened DotNet
  import MusicAlbum

  // ------------------------------------------------------------------
  // Similarity score

  /** Some name of `names` equals `x` ignoring case: `ContainsKey` on a
      dictionary built with `StringComparer.OrdinalIgnoreCase`. */
  predicate ContainsIgnoreCase(names: seq<string>, x: string) {
    exists i | 0 <= i < |names| :: EqualsIgnoreCase(names[i], x)
  }

  /** Two entries of `names` are equal ignoring case: `ToDictionary` with
      the case-insensitive comparer throws on the second one. */
  predicate HasCaseCollision(names: seq<string>) {
    exists i, j | 0 <= i < j < |names| :: EqualsIgnoreCase(names[i], names[j])
  }

  /** How many entries of `names1` (duplicates counted each time) occur in
      `names2` ignoring case. */
  function MatchCount(names1: seq<string>, names2: seq<string>): (n: nat)
    ensures n <= |names1|
    ensures n == 0 <==> forall i :: 0 <= i < |names1| ==> !ContainsIgnoreCase(names2, names1[i])
    ensures n == |names1| <==> forall i :: 0 <= i < |names1| ==> ContainsIgnoreCase(names2, names1[i])
    decreases |names1|
  {
    if |names1| == 0 then 0
    else
      var rest := MatchCount(names1[1..], names2);
      assert forall i :: 1 <= i < |names1| ==> names1[i] == names1[1..][i - 1];
      rest + if ContainsIgnoreCase(names2, names1[0]) then 1 else 0
  }

  /** Counting distributes over concatenation of the first list. */
  lemma {:induction false} MatchCountAppend(a: seq<string>, b: seq<string>, names2: seq<string>)
    ensures MatchCount(a + b, names2) == MatchCount(a, names2) + MatchCount(b, names2)
    decreases |a|
  {
    if |a| > 0 {
      assert (a + b)[1..] == a[1..] + b;
      MatchCountAppend(a[1..], b, names2);
    } else {
      assert a + b == b;
    }
  }

  /** Only which names the second list holds matters, not its order,
      spelling case or duplicates. */
  lemma {:induction false} MatchCountDependsOnMembership(names1: seq<string>, names2: seq<string>, names2': seq<string>)
    requires forall x :: ContainsIgnoreCase(names2, x) <==> ContainsIgnoreCase(names2', x)
    ensures MatchCount(names1, names2) == MatchCount(names1, names2')
    decreases |names1|
  {
    if |names1| > 0 {
      MatchCountDependsOnMembership(names1[1..], names2, names2');
    }
  }

  /** The bonus computed as `GetAlbumSimilarityScore` does it: walk the first album's
      names and add 5 for each one the second album's dictionary holds. */
  method ArtistBonus(names1: seq<string>, names2: seq<string>) returns (bonus: int)
    ensures bonus == 5 * MatchCount(names1, names2)
    ensures 0 <= bonus <= 5 * |names1| && bonus % 5 == 0
  {
    bonus := 0;
    var i := |names1|;
    while i > 0
      invariant 0 <= i <= |names1|
      invariant bonus == 5 * MatchCount(names1[i..], names2)
    {
      i := i - 1;
      assert names1[i..][1..] == names1[i + 1..];
      if ContainsIgnoreCase(names2, names1[i]) {
        bonus := bonus + 5;
      }
    }
    assert names1[0..] == names1;
  }

  const DuplicateKeyMessage: string := "An item with the same key has already been added."

  /** `GetAlbumSimilarityScore(item1, ..., item2)` with base score `points`
      and the de-duplication `distinctNames`: the second album's names must
      be distinct ignoring case, or building the dictionary throws, whatever
      the first album holds; otherwise the score is the base plus 5 for each
      of the first album's names found among the second's. */
  function AlbumSimilarityScore(points: int, album1: MusicAlbum.Album, album2: MusicAlbum.Album,
                                distinctNames: seq<string> -> seq<string>): (r: Result<int>)
    ensures r.Throws? <==> HasCaseCollision(distinctNames(MusicAlbum.AllArtists(album2)))
    ensures r.Throws? ==> r.error == ArgumentException(DuplicateKeyMessage)
    ensures r.Ok? ==> r.value == points + 5 * MatchCount(distinctNames(MusicAlbum.AllArtists(album1)),
                                                         distinctNames(MusicAlbum.AllArtists(album2)))
    ensures r.Ok? ==> points <= r.value <= points + 5 * |distinctNames(MusicAlbum.AllArtists(album1))|
    ensures r.Ok? ==> (r.value - points) % 5 == 0
  {
    var artists1 := distinctNames(MusicAlbum.AllArtists(album1));
    var artists2 := distinctNames(MusicAlbum.AllArtists(album2));
    if HasCaseCollision(artists2) then Throws(ArgumentException(DuplicateKeyMessage))
    else Ok(points + 5 * MatchCount(artists1, artists2))
  }

  /** No bonus when either album's de-duplicated list is empty; an empty
      second list cannot collide, so the score is then the base. An empty
      first list does not prevent the second album's collision from
      throwing. */
  lemma NoArtistsNoBonus(points: int, album1: MusicAlbum.Album, album2: MusicAlbum.Album,
                         distinctNames: seq<string> -> seq<string>)
    requires distinctNames(MusicAlbum.AllArtists(album1)) == [] || distinctNames(MusicAlbum.AllArtists(album2)) == []
    ensures AlbumSimilarityScore(points, album1, album2, distinctNames).Ok? ==>
              AlbumSimilarityScore(points, album1, album2, distinctNames).value == points
    ensures distinctNames(MusicAlbum.AllArtists(album2)) == [] ==>
              AlbumSimilarityScore(points, album1, album2, distinctNames) == Ok(points)
  {
    var artists1 := distinctNames(MusicAlbum.AllArtists(album1));
    var artists2 := distinctNames(MusicAlbum.AllArtists(album2));
    if artists2 == [] {
      assert forall i :: 0 <= i < |artists1| ==> !ContainsIgnoreCase(artists2, artists1[i]);
    }
  }

  /** An album with no artists at all, under a de-duplication that keeps
      an empty list empty, adds no bonus; as the second album it also
      cannot throw. */
  lemma AlbumWithoutArtistsScoresBase(points: int, album1: MusicAlbum.Album, album2: MusicAlbum.Album,
                                      distinctNames: seq<string> -> seq<string>)
    requires distinctNames([]) == []
    requires MusicAlbum.AllArtists(album1) == [] || MusicAlbum.AllArtists(album2) == []
    ensures AlbumSimilarityScore(points, album1, album2, distinctNames).Ok? ==>
              AlbumSimilarityScore(points, album1, album2, distinctNames).value == points
    ensures MusicAlbum.AllArtists(album2) == [] ==>
              AlbumSimilarityScore(points, album1, album2, distinctNames) == Ok(points)
  {
    NoArtistsNoBonus(points, album1, album2, distinctNames);
  }

  /** The score is not symmetric. With names passed through unchanged, an
      album credited to "a" and "A" scores 10 against one credited to "a",
      while the reverse comparison throws. */
  lemma ScoreIsNotSymmetric(p: map<MusicAlbum.Provider, string>)
    ensures var twice := MusicAlbum.Album([], ["A"], ["a"], p, None);
            var once := MusicAlbum.Album([], [], ["a"], p, None);
            var same := (names: seq<string>) => names;
            && AlbumSimilarityScore(0, twice, once, same) == Ok(10)
            && AlbumSimilarityScore(0, once, twice, same).Throws?
  {
    var same := (names: seq<string>) => names;
    assert MusicAlbum.AllArtists(MusicAlbum.Album([], ["A"], ["a"], p, None)) == ["a", "A"];
    assert EqualsIgnoreCase("a", "A");
    assert EqualsIgnoreCase("a", "a");
    assert !HasCaseCollision(["a"]);
    assert ContainsIgnoreCase(["a"], "A") && ContainsIgnoreCase(["a"], "a");
    assert MatchCount(["A"], ["a"]) == 1;
    assert MatchCount(["a", "A"], ["a"]) == 2;
  }

  // ------------------------------------------------------------------
  // Paging

  /** LINQ `Take(n)`: the first `n` items, none for `n <= 0`, all when `n`
      exceeds the count. */
  function Take<T>(s: seq<T>, n: int): (r: seq<T>)
    ensures |r| == (if n <= 0 then 0 else Min(n, |s|))
    ensures r == s[..|r|]
  {
    if n <= 0 then [] else if n >= |s| then s else s[..n]
  }

  /** The page handed back and the size of the whole ranked list. */
  datatype ItemsResult<T> = ItemsResult(items: seq<T>, totalRecordCount: nat)

  /** The paging of `GetSimilarItemsResult`: a prefix of the ranked list
      of at most `Limit` items (all of them without a limit), while the
      total always counts the whole list. */
  function Page<T>(ranked: seq<T>, limit: Option<int>): (r: ItemsResult<T>)
    ensures r.totalRecordCount == |ranked|
    ensures |r.items| <= |ranked| && r.items == ranked[..|r.items|]
    ensures limit.None? ==> r.items == ranked
    ensures limit.Some? ==> |r.items| <= Max(limit.value, 0)
    ensures limit.Some? ==> |r.items| == Min(Max(limit.value, 0), |ranked|)
    ensures limit.Some? && limit.value >= |ranked| ==> r.items == ranked
  {
    ItemsResult(if limit.Some? then Take(ranked, limit.value) else ranked, |ranked|)
  }

  /** Paging loses nothing: the next page starts where this one ends, and
      two pages together are the first `n + m` items. */
  lemma PagesConcatenate<T>(ranked: seq<T>, n: nat, m: nat)
    requires n <= |ranked|
    ensures Page(ranked, Some(n)).items + Page(ranked[n..], Some(m)).items == Page(ranked, Some(n + m)).items
  {
    if n + m <= |ranked| {
      assert ranked[..n] + ranked[n..][..m] == ranked[..n + m];
    } else {
      assert ranked[..n] + ranked[n..] == ranked;
    }
  }

  // ------------------------------------------------------------------
  // Which items are searched

  /** Where the items considered for similarity come from. */
  datatype Root = LibraryRoot | UserRoot(userId: string)

  /** The item the results are similar to (lines 89-91): the requested id,
      or else the user's root, or else the library root. */
  datatype Subject = ItemById(id: string) | RootFolder(root: Root)

  function SimilarTo(userId: Option<string>, id: Option<string>): (s: Subject)
    ensures s.ItemById? <==> !IsNullOrEmpty(id)
    ensures s == RootFolder(LibraryRoot) <==> IsNullOrEmpty(id) && IsNullOrWhiteSpace(userId)
    ensures s.ItemById? ==> Some(s.id) == id
    ensures s.RootFolder? && s.root.UserRoot? ==> Some(s.root.userId) == userId
  {
    if !IsNullOrEmpty(id) then ItemById(id.value)
    else if !IsNullOrWhiteSpace(userId) then RootFolder(UserRoot(userId.value))
    else RootFolder(LibraryRoot)
  }

  /** The root searched for candidates as written (line 93): it reads the
      user's root folder even when no user id was given, and the user is
      then `null`. */
  function SearchRootAsWritten(userId: Option<string>): (r: Result<Root>)
    ensures r.Throws? <==> IsNullOrWhiteSpace(userId)
    ensures r.Throws? ==> r.error == NullReferenceException
    ensures r.Ok? ==> r.value == UserRoot(userId.value)
  {
    if !IsNullOrWhiteSpace(userId) then Ok(UserRoot(userId.value)) else Throws(NullReferenceException)
  }

  /** The root searched with the fallback the subject selection already
      uses: the library root when no user id is given. */
  function SearchRoot(userId: Option<string>): (r: Root)
    ensures r == LibraryRoot <==> IsNullOrWhiteSpace(userId)
    ensures r.UserRoot? ==> Some(r.userId) == userId
  {
    if !IsNullOrWhiteSpace(userId) then UserRoot(userId.value) else LibraryRoot
  }

  /** A request without a user id fails as written and searches the
      library with the fallback; with a user id both agree, and the
      searched root is then the subject's root whenever no item id is
      given. */
  lemma SearchRootFinding(userId: Option<string>, id: Option<string>)
    ensures IsNullOrWhiteSpace(userId) ==>
              SearchRootAsWritten(userId) == Throws(NullReferenceException) && SearchRoot(userId) == LibraryRoot
    ensures !IsNullOrWhiteSpace(userId) ==> SearchRootAsWritten(userId) == Ok(SearchRoot(userId))
    ensures IsNullOrEmpty(id) ==> SimilarTo(userId, id) == RootFolder(SearchRoot(userId))
    ensures SearchRootAsWritten(None) == Throws(NullReferenceException)
  {
  }

  /** `GetSimilarItemsResult` with the corrected search root. `rank`
      stands for `GetArtists` followed by `GetSimilaritems`: the ranked
      items similar to the subject among those under the root. */
  function GetSimilarItemsResult<T>(userId: Option<string>, id: Option<string>, limit: Option<int>,
                                    rank: (Subject, Root) -> seq<T>): (r: ItemsResult<T>)
    ensures r.totalRecordCount == |rank(SimilarTo(userId, id), SearchRoot(userId))|
    ensures |r.items| <= r.totalRecordCount
    ensures r.items == rank(SimilarTo(userId, id), SearchRoot(userId))[..|r.items|]
    ensures limit.None? ==> r.items == rank(SimilarTo(userId, id), SearchRoot(userId))
    ensures limit.Some? ==> |r.items| == Min(Max(limit.value, 0), r.totalRecordCount)
  {
    Page(rank(SimilarTo(userId, id), SearchRoot(userId)), limit)
  }

  /** The same as written: it throws for every request without a user id. */
  function GetSimilarItemsResultAsWritten<T>(userId: Option<string>, id: Option<string>, limit: Option<int>,
                                             rank: (Subject, Root) -> seq<T>): (r: Result<ItemsResult<T>>)
    ensures r.Throws? <==> IsNullOrWhiteSpace(userId)
    ensures r.Ok? ==> r.value == GetSimilarItemsResult(userId, id, limit, rank)
  {
    match SearchRootAsWritten(userId)
    case Throws(e) => Throws(e)
    case Ok(root) => Ok(Page(rank(SimilarTo(userId, id), root), limit))
  }
}
