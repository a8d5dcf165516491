/** The music album entity (`MusicAlbum`): its artist lists, the key under
    which users' play state is stored, and how the album is grouped in
    indexes. Reading a property returns a new value and never changes the
    album: the album is an immutable value here. */
module MusicAlbum {
  import opened DotNet

  /** An item id; only identity matters. */
  type Guid = nat

  /** The metadata providers whose ids the album consults. */
  datatype Provider = MusicBrainzReleaseGroup | MusicBrainzAlbum | OtherProvider(name: string)

  /** The folder an album sits in: an artist, or any other folder. */
  datatype Folder = MusicArtist(name: string) | OtherFolder(name: string)

  datatype Album = Album(
    soundtrackIds: seq<Guid>,
    artists: seq<string>,
    albumArtists: seq<string>,
    providerIds: map<Provider, string>,
    parent: Option<Folder>)

  /** `new MusicAlbum()` placed under `parent` with the given provider ids:
      all three lists start empty. */
  function NewAlbum(providerIds: map<Provider, string>, parent: Option<Folder>): (a: Album)
    ensures a.providerIds == providerIds && a.parent == parent
    ensures a.soundtrackIds == [] && a.artists == [] && a.albumArtists == []
  {
    Album([], [], [], providerIds, parent)
  }

  /** `AllArtists`: the album artists followed by the track artists, every
      entry kept, in order. */
  function AllArtists(a: Album): (r: seq<string>)
    ensures |r| == |a.albumArtists| + |a.artists|
    ensures forall i :: 0 <= i < |a.albumArtists| ==> r[i] == a.albumArtists[i]
    ensures forall j :: 0 <= j < |a.artists| ==> r[|a.albumArtists| + j] == a.artists[j]
    ensures multiset(r) == multiset(a.albumArtists) + multiset(a.artists)
  {
    a.albumArtists + a.artists
  }

  /** `AlbumArtist`: the first album artist, or `null` when there is none. */
  function AlbumArtist(a: Album): (r: Option<string>)
    ensures r.None? <==> a.albumArtists == []
    ensures r.Some? ==> r.value == a.albumArtists[0]
  {
    if |a.albumArtists| == 0 then None else Some(a.albumArtists[0])
  }

  /** The album artist, when there is one, heads `AllArtists`; a new album
      has neither. */
  lemma AlbumArtistLeadsAllArtists(a: Album, providerIds: map<Provider, string>, parent: Option<Folder>)
    ensures AlbumArtist(a).Some? ==> AllArtists(a)[0] == AlbumArtist(a).value
    ensures AllArtists(NewAlbum(providerIds, parent)) == [] && AlbumArtist(NewAlbum(providerIds, parent)) == None
  {
  }

  /** `GetProviderId`: `null` when the album has no id from that provider. */
  function ProviderId(a: Album, p: Provider): Option<string> {
    if p in a.providerIds then Some(a.providerIds[p]) else None
  }

  const ReleaseGroupKeyPrefix: string := "MusicAlbum-MusicBrainzReleaseGroup-"
  const AlbumKeyPrefix: string := "MusicAlbum-Musicbrainz-"

  /** `CreateUserDataKey`: a usable release-group id gives the key, else a
      usable album id, else the key of the base item, `baseKey`. A blank
      (white-space) id counts as missing. */
  function CreateUserDataKey(a: Album, baseKey: string): (k: string)
    ensures !IsNullOrWhiteSpace(ProviderId(a, MusicBrainzReleaseGroup)) ==>
              k == ReleaseGroupKeyPrefix + ProviderId(a, MusicBrainzReleaseGroup).value
    ensures IsNullOrWhiteSpace(ProviderId(a, MusicBrainzReleaseGroup)) && !IsNullOrWhiteSpace(ProviderId(a, MusicBrainzAlbum)) ==>
              k == AlbumKeyPrefix + ProviderId(a, MusicBrainzAlbum).value
    ensures IsNullOrWhiteSpace(ProviderId(a, MusicBrainzReleaseGroup)) && IsNullOrWhiteSpace(ProviderId(a, MusicBrainzAlbum)) ==>
              k == baseKey
  {
    var releaseGroup := ProviderId(a, MusicBrainzReleaseGroup);
    if !IsNullOrWhiteSpace(releaseGroup) then ReleaseGroupKeyPrefix + releaseGroup.value
    else
      var album := ProviderId(a, MusicBrainzAlbum);
      if !IsNullOrWhiteSpace(album) then AlbumKeyPrefix + album.value
      else baseKey
  }

  /** Albums of one release group share their user data: the key depends on
      the release-group id alone, not on the album id, the artists or the
      base key. */
  lemma ReleaseGroupSharesUserData(a: Album, b: Album, baseA: string, baseB: string)
    requires !IsNullOrWhiteSpace(ProviderId(a, MusicBrainzReleaseGroup))
    requires ProviderId(a, MusicBrainzReleaseGroup) == ProviderId(b, MusicBrainzReleaseGroup)
    ensures CreateUserDataKey(a, baseA) == CreateUserDataKey(b, baseB)
  {
  }

  /** The two prefixes differ in case at "MusicBrainz"/"Musicbrainz", so a
      release-group key and an album key never coincide, and each key gives
      back its id. */
  lemma UserDataKeysDoNotCollide(a: Album, b: Album, baseA: string, baseB: string)
    requires !IsNullOrWhiteSpace(ProviderId(a, MusicBrainzReleaseGroup))
    requires IsNullOrWhiteSpace(ProviderId(b, MusicBrainzReleaseGroup)) && !IsNullOrWhiteSpace(ProviderId(b, MusicBrainzAlbum))
    ensures CreateUserDataKey(a, baseA) != CreateUserDataKey(b, baseB)
    ensures CreateUserDataKey(a, baseA)[|ReleaseGroupKeyPrefix|..] == ProviderId(a, MusicBrainzReleaseGroup).value
    ensures CreateUserDataKey(b, baseB)[|AlbumKeyPrefix|..] == ProviderId(b, MusicBrainzAlbum).value
  {
    var ka := CreateUserDataKey(a, baseA);
    var kb := CreateUserDataKey(b, baseB);
    assert ka[16] == 'B';
    assert kb[16] == 'b';
  }

  // ------------------------------------------------------------------
  // Indexing

  /** Albums are not listed in an index themselves (their songs group into
      them) but are grouped under a container. */
  const IncludeInIndex: bool := false
  const GroupInIndex: bool := true

  const UnknownArtistName: string := "<Unknown>"

  /** The container an album is grouped under: its parent artist, or the
      one shared "<Unknown>" artist object. */
  datatype Container = ParentArtist(artist: Folder) | UnknownArtist

  function ContainerName(c: Container): string {
    match c
    case ParentArtist(f) => f.name
    case UnknownArtist => UnknownArtistName
  }

  /** `IndexContainer`: the parent when it is an artist, otherwise the
      shared unknown artist. */
  function IndexContainer(a: Album): (c: Container)
    ensures c.ParentArtist? <==> a.parent.Some? && a.parent.value.MusicArtist?
    ensures c.ParentArtist? ==> Some(c.artist) == a.parent
  {
    match a.parent
    case Some(MusicArtist(n)) => ParentArtist(MusicArtist(n))
    case _ => UnknownArtist
  }

  /** Every album without an artist parent, whatever else it is under, is
      grouped in the same "<Unknown>" container; grouping is on and the
      album itself is kept out of the index. */
  lemma OrphanAlbumsShareContainer(a: Album, b: Album)
    requires a.parent.None? || a.parent.value.OtherFolder?
    requires b.parent.None? || b.parent.value.OtherFolder?
    ensures IndexContainer(a) == IndexContainer(b)
    ensures ContainerName(IndexContainer(a)) == UnknownArtistName
    ensures GroupInIndex && !IncludeInIndex
  {
  }
}
