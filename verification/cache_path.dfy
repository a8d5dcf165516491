/** Naming of cached subtitle files (`SubtitleEncoder.GetSubtitleCachePath`
    and `SubtitleCachePath`): the media path, stream index and the media
    file's last-write time in ticks are joined with "_" into a key; the key's
    digest followed by the output extension is the file name; and the file
    lives in `<cache root>\subtitles\<first character of the file name>\`.
    The digest (`GetMD5`, not part of this model) and the file's last-write
    time are inputs. */
module CachePath {
  import opened DotNet

  const SubtitlesDirectory: string := "subtitles"

  /** The text that is hashed. */
  function CacheKey(mediaPath: string, streamIndex: int, lastWriteTicks: int): string {
    mediaPath + "_" + IntToString(streamIndex) + "_" + IntToString(lastWriteTicks)
  }

  /** The key starts with the media path and an underscore, and ends with
      an underscore and the ticks, which read back as the same number. */
  lemma CacheKeyLayout(mediaPath: string, streamIndex: int, lastWriteTicks: int)
    ensures var k := CacheKey(mediaPath, streamIndex, lastWriteTicks);
            var n := |IntToString(lastWriteTicks)|;
            && |k| > |mediaPath| + n + 1
            && k[..|mediaPath| + 1] == mediaPath + "_"
            && k[|k| - n - 1] == '_'
            && ParseInt(k[|k| - n..]) == lastWriteTicks
  {
    var k := CacheKey(mediaPath, streamIndex, lastWriteTicks);
    assert k[|k| - |IntToString(lastWriteTicks)|..] == IntToString(lastWriteTicks);
    IntToStringRoundTrip(lastWriteTicks);
  }

  /** `GetSubtitleCachePath(mediaPath, streamIndex, extension)`. Taking the
      first character of an empty file name would throw. */
  function SubtitleCachePath(cacheRoot: string, mediaPath: string, streamIndex: int, lastWriteTicks: int,
                             extension: string, hash: string -> string): (r: Result<string>)
    ensures r.Throws? <==> hash(CacheKey(mediaPath, streamIndex, lastWriteTicks)) + extension == ""
    ensures r.Ok? ==> |hash(CacheKey(mediaPath, streamIndex, lastWriteTicks)) + extension| <= |r.value|
    ensures r.Ok? ==> var name := hash(CacheKey(mediaPath, streamIndex, lastWriteTicks)) + extension;
                      r.value[|r.value| - |name|..] == name
  {
    var fileName := hash(CacheKey(mediaPath, streamIndex, lastWriteTicks)) + extension;
    if |fileName| == 0 then Throws(ArgumentOutOfRangeException("length"))
    else
      var directory := Combine(Combine(cacheRoot, SubtitlesDirectory), fileName[..1]);
      assert !IsRooted(fileName) ==> Combine(directory, fileName)[|Combine(directory, fileName)| - |fileName|..] == fileName;
      Ok(Combine(directory, fileName))
  }

  /** A digest made of hexadecimal digits and dashes, the shape of the text
      of a GUID. */
  predicate DigestShaped(d: string) {
    |d| > 0 && forall i :: 0 <= i < |d| ==> IsDigit(d[i]) || 'a' <= d[i] <= 'f' || 'A' <= d[i] <= 'F' || d[i] == '-'
  }

  // ------------------------------------------------------------------
  // Properties

  /** The index of the last `c` in `k[..n]`, or -1. */
  function LastIndexOf(k: string, c: char, n: nat): int
    requires n <= |k|
    decreases n
  {
    if n == 0 then -1 else if k[n - 1] == c then n - 1 else LastIndexOf(k, c, n - 1)
  }

  /** A `c` with no `c` after it (below `n`) is the last one. */
  lemma {:induction false} LastIndexOfFinds(k: string, c: char, n: nat, m: nat)
    requires m < n <= |k| && k[m] == c
    requires forall j :: m < j < n ==> k[j] != c
    ensures LastIndexOf(k, c, n) == m
    decreases n
  {
    if n - 1 != m {
      LastIndexOfFinds(k, c, n - 1, m);
    }
  }

  /** Splitting `a + "_" + b` at its last underscore recovers `a` and `b`
      when `b` has no underscore. */
  lemma SplitAtLastUnderscore(a: string, b: string, a': string, b': string)
    requires forall i :: 0 <= i < |b| ==> b[i] != '_'
    requires forall i :: 0 <= i < |b'| ==> b'[i] != '_'
    requires a + "_" + b == a' + "_" + b'
    ensures a == a' && b == b'
  {
    var k := a + "_" + b;
    var k' := a' + "_" + b';
    forall j | |a| < j < |k| ensures k[j] != '_' {
      assert k[j] == b[j - |a| - 1];
    }
    forall j | |a'| < j < |k'| ensures k'[j] != '_' {
      assert k'[j] == b'[j - |a'| - 1];
    }
    LastIndexOfFinds(k, '_', |k|, |a|);
    LastIndexOfFinds(k', '_', |k'|, |a'|);
    assert a == k[..|a|] == a';
    assert b == k[|a| + 1..] == b';
  }

  /** Formatted integers contain no underscore. */
  lemma NoUnderscoreInNumber(n: int)
    ensures forall i :: 0 <= i < |IntToString(n)| ==> IntToString(n)[i] != '_'
  {
  }

  /** The key determines all three of its parts: two different media
      files, streams or modification times never share a key. */
  lemma CacheKeyInjective(m: string, i: int, t: int, m': string, i': int, t': int)
    requires CacheKey(m, i, t) == CacheKey(m', i', t')
    ensures m == m' && i == i' && t == t'
  {
    NoUnderscoreInNumber(i);
    NoUnderscoreInNumber(i');
    NoUnderscoreInNumber(t);
    NoUnderscoreInNumber(t');
    SplitAtLastUnderscore(m + "_" + IntToString(i), IntToString(t), m' + "_" + IntToString(i'), IntToString(t'));
    SplitAtLastUnderscore(m, IntToString(i), m', IntToString(i'));
    IntToStringInjective(t, t');
    IntToStringInjective(i, i');
  }

  /** Touching the media file (changing only its modification time) changes
      the key, so the old cache entry is no longer found. */
  lemma TicksChangeKey(m: string, i: int, t: int, t': int)
    requires t != t'
    ensures CacheKey(m, i, t) != CacheKey(m, i, t')
  {
    if CacheKey(m, i, t) == CacheKey(m, i, t') {
      CacheKeyInjective(m, i, t, m, i, t');
    }
  }

  /** With a digest of the usual shape, the file sits in
      `<root>\subtitles\<c>\` where `<c>` is the digest's first character. */
  lemma ShardedLayout(cacheRoot: string, mediaPath: string, streamIndex: int, lastWriteTicks: int,
                      extension: string, hash: string -> string)
    requires DigestShaped(hash(CacheKey(mediaPath, streamIndex, lastWriteTicks)))
    requires extension == "" || extension[0] == '.'
    ensures var d := hash(CacheKey(mediaPath, streamIndex, lastWriteTicks));
            SubtitleCachePath(cacheRoot, mediaPath, streamIndex, lastWriteTicks, extension, hash)
              == Ok(Combine(cacheRoot, SubtitlesDirectory) + [DirectorySeparator] + [d[0]] + [DirectorySeparator] + d + extension)
  {
    var d := hash(CacheKey(mediaPath, streamIndex, lastWriteTicks));
    var fileName := d + extension;
    var sub := Combine(cacheRoot, SubtitlesDirectory);
    assert sub[|sub| - 1] == 's';
    assert fileName[..1] == [d[0]];
    var directory := Combine(sub, fileName[..1]);
    assert directory == sub + [DirectorySeparator] + [d[0]];
    assert !IsRooted(fileName) by {
      assert fileName[0] == d[0];
      if |fileName| >= 2 {
        assert fileName[1] == (if |d| >= 2 then d[1] else extension[0]);
      }
    }
    assert Combine(directory, fileName) == directory + [DirectorySeparator] + fileName;
    assert directory + [DirectorySeparator] + fileName
        == sub + [DirectorySeparator] + [d[0]] + [DirectorySeparator] + d + extension;
  }

  /** With a digest that tells these two keys apart and has the usual shape, two
      modification times give two different cache files. */
  lemma TicksChangePath(cacheRoot: string, mediaPath: string, streamIndex: int, t: int, t': int,
                        extension: string, hash: string -> string)
    requires t != t'
    requires hash(CacheKey(mediaPath, streamIndex, t)) == hash(CacheKey(mediaPath, streamIndex, t'))
             ==> CacheKey(mediaPath, streamIndex, t) == CacheKey(mediaPath, streamIndex, t')
    requires DigestShaped(hash(CacheKey(mediaPath, streamIndex, t)))
    requires DigestShaped(hash(CacheKey(mediaPath, streamIndex, t')))
    requires extension == "" || extension[0] == '.'
    ensures SubtitleCachePath(cacheRoot, mediaPath, streamIndex, t, extension, hash)
         != SubtitleCachePath(cacheRoot, mediaPath, streamIndex, t', extension, hash)
  {
    TicksChangeKey(mediaPath, streamIndex, t, t');
    ShardedLayout(cacheRoot, mediaPath, streamIndex, t, extension, hash);
    ShardedLayout(cacheRoot, mediaPath, streamIndex, t', extension, hash);
    var d := hash(CacheKey(mediaPath, streamIndex, t));
    var d' := hash(CacheKey(mediaPath, streamIndex, t'));
    var sub := Combine(cacheRoot, SubtitlesDirectory);
    var p := sub + [DirectorySeparator] + [d[0]] + [DirectorySeparator] + d + extension;
    var p' := sub + [DirectorySeparator] + [d'[0]] + [DirectorySeparator] + d' + extension;
    assert p[|sub| + 3..] == d + extension;
    assert p'[|sub| + 3..] == d' + extension;
    assert d == (d + extension)[..|d + extension| - |extension|];
    assert d' == (d' + extension)[..|d' + extension| - |extension|];
  }
}
