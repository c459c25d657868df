/** Which entries of a directory are processed: one glob per audio extension, in a fixed
    extension order, the results concatenated. The listing is a sequence of entry names
    in listing order. */
module AudioSelection {
  import opened Text

  /** The extensions a directory is searched for, in search order. */
  const AudioExtensions: seq<string> := [".wav", ".mp3", ".m4a", ".aac", ".ogg", ".flac"]

  /** `glob("*" + ext)` over a listing: the names ending in `ext`, in listing order. */
  function Glob(names: seq<string>, ext: string): seq<string> {
    if names == [] then []
    else (if EndsWith(names[0], ext) then [names[0]] else []) + Glob(names[1..], ext)
  }

  /** A name is globbed exactly when it is listed and ends in the extension. */
  lemma {:induction false} GlobMembers(names: seq<string>, ext: string, x: string)
    ensures x in Glob(names, ext) <==> x in names && EndsWith(x, ext)
    decreases |names|
  {
    if names != [] {
      GlobMembers(names[1..], ext, x);
      assert names == [names[0]] + names[1..];
    }
  }

  /** One glob per extension, concatenated in extension order. */
  function SelectBy(names: seq<string>, exts: seq<string>): seq<string>
    decreases |exts|
  {
    if exts == [] then []
    else SelectBy(names, exts[..|exts| - 1]) + Glob(names, exts[|exts| - 1])
  }

  /** The files a directory run processes, for a listing `names`. */
  function SelectAudio(names: seq<string>): seq<string> {
    SelectBy(names, AudioExtensions)
  }

  /** Builds the list of audio files by extending it with one glob per extension. */
  method SelectAudioFiles(names: seq<string>) returns (audioFiles: seq<string>)
    ensures audioFiles == SelectAudio(names)
  {
    audioFiles := [];
    for k := 0 to |AudioExtensions|
      invariant audioFiles == SelectBy(names, AudioExtensions[..k])
    {
      assert AudioExtensions[..k + 1][..k] == AudioExtensions[..k];
      audioFiles := audioFiles + Glob(names, AudioExtensions[k]);
    }
    assert AudioExtensions[..|AudioExtensions|] == AudioExtensions;
  }

  /** `x` ends in one of `exts`. */
  predicate Matches(x: string, exts: seq<string>) {
    exists a :: 0 <= a < |exts| && EndsWith(x, exts[a])
  }

  /** The names that end in one of `exts`, in listing order (a single filtering pass). */
  function KeepMatching(names: seq<string>, exts: seq<string>): seq<string> {
    if names == [] then []
    else (if Matches(names[0], exts) then [names[0]] else []) + KeepMatching(names[1..], exts)
  }

  /** No extension of the list is a suffix of another one, so a name ends in at most one. */
  predicate SuffixFree(exts: seq<string>) {
    forall a, b :: 0 <= a < |exts| && 0 <= b < |exts| && a != b ==> !EndsWith(exts[a], exts[b])
  }

  /** A name ending in two extensions ends in the longer one, whose suffix is the shorter. */
  lemma EndsWithBoth(x: string, short: string, long: string)
    ensures EndsWith(x, short) && EndsWith(x, long) && |short| <= |long| ==> EndsWith(long, short)
  {
    if EndsWith(x, short) && EndsWith(x, long) && |short| <= |long| {
      assert long[|long| - |short|..] == x[|x| - |short|..];
    }
  }

  /** With a suffix-free list, a name ends in at most one of its extensions. */
  lemma AtMostOneExtension(x: string, exts: seq<string>, a: nat, b: nat)
    requires SuffixFree(exts) && a < |exts| && b < |exts|
    ensures EndsWith(x, exts[a]) && EndsWith(x, exts[b]) ==> a == b
  {
    EndsWithBoth(x, exts[a], exts[b]);
    EndsWithBoth(x, exts[b], exts[a]);
  }

  /** A dot followed by at least one character that is not a dot. */
  predicate DotExtension(e: string) {
    |e| >= 2 && e[0] == '.' && forall k :: 1 <= k < |e| ==> e[k] != '.'
  }

  /** Distinct dot extensions are never suffixes of one another. */
  lemma DotExtensionsSuffixFree(exts: seq<string>)
    requires forall a :: 0 <= a < |exts| ==> DotExtension(exts[a])
    requires forall a, b :: 0 <= a < b < |exts| ==> exts[a] != exts[b]
    ensures SuffixFree(exts)
  {
    forall a, b | 0 <= a < |exts| && 0 <= b < |exts| && a != b
      ensures !EndsWith(exts[a], exts[b])
    {
      var long, short := exts[a], exts[b];
      if |short| == |long| {
        assert long[|long| - |short|..] == long != short;
      } else if |short| < |long| {
        assert long[|long| - |short|..][0] != short[0];
      }
    }
  }

  /** The six audio extensions are suffix-free. */
  lemma AudioExtensionsSuffixFree()
    ensures SuffixFree(AudioExtensions)
  {
    var exts := AudioExtensions;
    forall a | 0 <= a < |exts|
      ensures DotExtension(exts[a])
    {
    }
    forall a, b | 0 <= a < b < |exts|
      ensures exts[a] != exts[b]
    {
      assert exts[a][1] != exts[b][1] || exts[a][2] != exts[b][2];
    }
    DotExtensionsSuffixFree(exts);
  }

  /** A name is selected exactly when it is listed and ends in one of the extensions. */
  lemma {:induction false} SelectByMembership(names: seq<string>, exts: seq<string>, x: string)
    ensures x in SelectBy(names, exts) <==> x in names && Matches(x, exts)
    decreases |exts|
  {
    if exts != [] {
      var init, last := exts[..|exts| - 1], exts[|exts| - 1];
      SelectByMembership(names, init, x);
      if Matches(x, exts) {
        var a :| 0 <= a < |exts| && EndsWith(x, exts[a]);
        if a < |init| {
          assert EndsWith(x, init[a]);
        }
      }
      if Matches(x, init) {
        var a :| 0 <= a < |init| && EndsWith(x, init[a]);
        assert EndsWith(x, exts[a]);
      }
      GlobMembers(names, last, x);
      if EndsWith(x, last) {
        assert EndsWith(x, exts[|exts| - 1]);
      }
    }
  }

  /** A name matches a list exactly when it matches the list without its last extension
      or the last extension itself, and (for a suffix-free list) never both. */
  lemma MatchesSnoc(x: string, exts: seq<string>)
    requires SuffixFree(exts) && exts != []
    ensures Matches(x, exts) <==> Matches(x, exts[..|exts| - 1]) || EndsWith(x, exts[|exts| - 1])
    ensures !(Matches(x, exts[..|exts| - 1]) && EndsWith(x, exts[|exts| - 1]))
  {
    var init, last := exts[..|exts| - 1], exts[|exts| - 1];
    if Matches(x, init) {
      var a :| 0 <= a < |init| && EndsWith(x, init[a]);
      assert EndsWith(x, exts[a]);
      AtMostOneExtension(x, exts, a, |exts| - 1);
    }
    if Matches(x, exts) {
      var a :| 0 <= a < |exts| && EndsWith(x, exts[a]);
      if a < |init| {
        assert EndsWith(x, init[a]);
      }
    }
  }

  /** Filtering by a suffix-free list keeps, as a multiset, what filtering by the list
      without its last extension keeps plus the names ending in that last extension. */
  lemma {:induction false} KeepMatchingSnoc(names: seq<string>, exts: seq<string>)
    requires SuffixFree(exts) && exts != []
    ensures multiset(KeepMatching(names, exts))
         == multiset(KeepMatching(names, exts[..|exts| - 1])) + multiset(Glob(names, exts[|exts| - 1]))
    decreases |names|
  {
    if names != [] {
      var x, rest := names[0], names[1..];
      var init, last := exts[..|exts| - 1], exts[|exts| - 1];
      KeepMatchingSnoc(rest, exts);
      MatchesSnoc(x, exts);
      var h := if Matches(x, exts) then [x] else [];
      var hi := if Matches(x, init) then [x] else [];
      var hg := if EndsWith(x, last) then [x] else [];
      assert KeepMatching(names, exts) == h + KeepMatching(rest, exts);
      assert KeepMatching(names, init) == hi + KeepMatching(rest, init);
      assert Glob(names, last) == hg + Glob(rest, last);
      assert multiset(h) == multiset(hi) + multiset(hg);
    }
  }

  /** Dropping the last extension keeps a list suffix-free. */
  lemma SuffixFreePrefix(exts: seq<string>)
    requires SuffixFree(exts) && exts != []
    ensures SuffixFree(exts[..|exts| - 1])
  {
    var init := exts[..|exts| - 1];
    forall a, b | 0 <= a < |init| && 0 <= b < |init| && a != b
      ensures !EndsWith(init[a], init[b])
    {
      assert init[a] == exts[a] && init[b] == exts[b];
    }
  }

  /** Globbing once per extension selects each matching name exactly once: the selection
      is a permutation of the single-pass filter. */
  lemma {:induction false} SelectByPermutation(names: seq<string>, exts: seq<string>)
    requires SuffixFree(exts)
    ensures multiset(SelectBy(names, exts)) == multiset(KeepMatching(names, exts))
    decreases |exts|
  {
    if exts == [] {
      KeepNothing(names);
    } else {
      SuffixFreePrefix(exts);
      SelectByPermutation(names, exts[..|exts| - 1]);
      KeepMatchingSnoc(names, exts);
    }
  }

  lemma {:induction false} KeepNothing(names: seq<string>)
    ensures KeepMatching(names, []) == []
    decreases |names|
  {
    if names != [] {
      KeepNothing(names[1..]);
    }
  }

  /** The selection is grouped by extension, groups in the order of the extension list. */
  lemma {:induction false} SelectByGrouped(names: seq<string>, exts: seq<string>)
    requires SuffixFree(exts)
    ensures var sel := SelectBy(names, exts);
      forall i, j, a, b ::
        (0 <= i < j < |sel| && 0 <= a < |exts| && 0 <= b < |exts|
         && EndsWith(sel[i], exts[a]) && EndsWith(sel[j], exts[b])) ==> a <= b
    decreases |exts|
  {
    if exts != [] {
      var init, last := exts[..|exts| - 1], exts[|exts| - 1];
      var front, back := SelectBy(names, init), Glob(names, last);
      var sel := SelectBy(names, exts);
      assert sel == front + back;
      SuffixFreePrefix(exts);
      SelectByGrouped(names, init);
      forall i, j, a, b | 0 <= i < j < |sel| && 0 <= a < |exts| && 0 <= b < |exts|
        && EndsWith(sel[i], exts[a]) && EndsWith(sel[j], exts[b])
        ensures a <= b
      {
        if j < |front| {
          InitIndex(names, exts, sel[i], a);
          InitIndex(names, exts, sel[j], b);
          assert EndsWith(front[i], init[a]) && EndsWith(front[j], init[b]);
        } else {
          assert sel[j] == back[j - |front|];
          assert sel[j] in back;
          GlobMembers(names, last, sel[j]);
          AtMostOneExtension(sel[j], exts, b, |exts| - 1);
        }
      }
    }
  }

  /** An extension matched by a name that the shorter list already selects is in the
      shorter list. */
  lemma InitIndex(names: seq<string>, exts: seq<string>, x: string, a: nat)
    requires SuffixFree(exts) && exts != [] && a < |exts| && EndsWith(x, exts[a])
    requires x in SelectBy(names, exts[..|exts| - 1])
    ensures a < |exts| - 1
  {
    var init := exts[..|exts| - 1];
    SelectByMembership(names, init, x);
    var a' :| 0 <= a' < |init| && EndsWith(x, init[a']);
    assert EndsWith(x, exts[a']);
    AtMostOneExtension(x, exts, a, a');
  }

  /** The audio selection: exactly the listed names with an audio extension, each once,
      grouped by extension in the order `.wav, .mp3, .m4a, .aac, .ogg, .flac`. */
  lemma SelectAudioSpec(names: seq<string>)
    ensures forall x :: x in SelectAudio(names) <==> x in names && Matches(x, AudioExtensions)
    ensures multiset(SelectAudio(names)) == multiset(KeepMatching(names, AudioExtensions))
    ensures var sel := SelectAudio(names);
      forall i, j, a, b ::
        (0 <= i < j < |sel| && 0 <= a < 6 && 0 <= b < 6
         && EndsWith(sel[i], AudioExtensions[a]) && EndsWith(sel[j], AudioExtensions[b])) ==> a <= b
  {
    forall x
      ensures x in SelectAudio(names) <==> x in names && Matches(x, AudioExtensions)
    {
      SelectByMembership(names, AudioExtensions, x);
    }
    AudioExtensionsSuffixFree();
    SelectByPermutation(names, AudioExtensions);
    SelectByGrouped(names, AudioExtensions);
  }

  /** One more extension adds its glob at the end. */
  lemma SelectByStep(names: seq<string>, exts: seq<string>, k: nat)
    requires k < |exts|
    ensures SelectBy(names, exts[..k + 1]) == SelectBy(names, exts[..k]) + Glob(names, exts[k])
  {
    assert exts[..k + 1][..k] == exts[..k];
  }

  /** The glob of a three-entry listing, entry by entry. */
  lemma GlobOfThree(x: string, y: string, z: string, ext: string)
    ensures Glob([x, y, z], ext)
         == (if EndsWith(x, ext) then [x] else []) + (if EndsWith(y, ext) then [y] else [])
          + (if EndsWith(z, ext) then [z] else [])
  {
    assert [x, y, z][1..] == [y, z] && [y, z][1..] == [z] && [z][1..] == [];
    assert Glob([z], ext) == (if EndsWith(z, ext) then [z] else []) + Glob([], ext);
    assert Glob([y, z], ext) == (if EndsWith(y, ext) then [y] else []) + Glob([z], ext);
    assert Glob([x, y, z], ext) == (if EndsWith(x, ext) then [x] else []) + Glob([y, z], ext);
  }

  /** The directory scenario: of `a.wav`, `b.mp3` and `readme.txt`, the first two are
      selected, the `.wav` file first. */
  lemma ScenarioSelection()
    ensures SelectAudio(["a.wav", "b.mp3", "readme.txt"]) == ["a.wav", "b.mp3"]
  {
    ScenarioOf("a.wav", "b.mp3", "readme.txt");
  }

  /** A name whose last character differs from an extension's does not end in it. */
  lemma LastCharDiffers(name: string, ext: string)
    requires ext != [] && name != [] && name[|name| - 1] != ext[|ext| - 1]
    ensures !EndsWith(name, ext)
  {
    if |ext| <= |name| {
      assert name[|name| - |ext|..][|ext| - 1] == name[|name| - 1];
    }
  }

  /** An extension whose last character ends none of three names globs nothing. */
  lemma GlobOfThreeNone(x: string, y: string, z: string, ext: string)
    requires ext != [] && x != [] && y != [] && z != []
    requires ext[|ext| - 1] !in {x[|x| - 1], y[|y| - 1], z[|z| - 1]}
    ensures Glob([x, y, z], ext) == []
  {
    GlobOfThree(x, y, z, ext);
    LastCharDiffers(x, ext);
    LastCharDiffers(y, ext);
    LastCharDiffers(z, ext);
  }

  lemma ScenarioOf(x: string, y: string, z: string)
    requires x == "a.wav" && y == "b.mp3" && z == "readme.txt"
    ensures SelectAudio([x, y, z]) == [x, y]
  {
    var exts := AudioExtensions;
    assert x[|x| - 4..] == exts[0] && y[|y| - 4..] == exts[1];
    assert x[|x| - 1] == 'v' && y[|y| - 1] == '3' && z[|z| - 1] == 't';
    SelectOfThree(x, y, z);
  }

  /** Three names ending in `v`, `3` and `t`, the first two in `.wav` and `.mp3`: only `z`
      ends in none of the audio extensions, since no extension ends in `t`. */
  lemma SelectOfThree(x: string, y: string, z: string)
    requires EndsWith(x, AudioExtensions[0]) && EndsWith(y, AudioExtensions[1]) && z != []
    requires x[|x| - 1] == 'v' && y[|y| - 1] == '3' && z[|z| - 1] == 't'
    ensures SelectAudio([x, y, z]) == [x, y]
  {
    var exts := AudioExtensions;
    OnlyFirstMatches(x, y, z, exts[0]);
    OnlySecondMatches(x, y, z, exts[1]);
    GlobOfThreeNone(x, y, z, exts[2]);
    GlobOfThreeNone(x, y, z, exts[3]);
    GlobOfThreeNone(x, y, z, exts[4]);
    GlobOfThreeNone(x, y, z, exts[5]);
    SelectFromGlobs([x, y, z], x, y);
  }

  /** Of three names, only the second ends in `ext` when the other two end in a different
      character. */
  lemma OnlySecondMatches(x: string, y: string, z: string, ext: string)
    requires EndsWith(y, ext) && ext != [] && x != [] && z != []
    requires x[|x| - 1] != ext[|ext| - 1] && z[|z| - 1] != ext[|ext| - 1]
    ensures Glob([x, y, z], ext) == [y]
  {
    GlobOfThree(x, y, z, ext);
    LastCharDiffers(x, ext);
    LastCharDiffers(z, ext);
  }

  /** Of three names, only the first ends in `ext` when the other two end in a different
      character. */
  lemma OnlyFirstMatches(x: string, y: string, z: string, ext: string)
    requires EndsWith(x, ext) && ext != [] && y != [] && z != []
    requires y[|y| - 1] != ext[|ext| - 1] && z[|z| - 1] != ext[|ext| - 1]
    ensures Glob([x, y, z], ext) == [x]
  {
    GlobOfThree(x, y, z, ext);
    LastCharDiffers(y, ext);
    LastCharDiffers(z, ext);
  }

  /** A selection over six extensions is the concatenation of the six globs. */
  lemma SelectBySix(names: seq<string>, exts: seq<string>)
    requires |exts| == 6
    ensures SelectBy(names, exts)
         == Glob(names, exts[0]) + Glob(names, exts[1]) + Glob(names, exts[2])
          + Glob(names, exts[3]) + Glob(names, exts[4]) + Glob(names, exts[5])
  {
    assert exts[..0] == [];
    SelectByStep(names, exts, 0);
    SelectByStep(names, exts, 1);
    SelectByStep(names, exts, 2);
    SelectByStep(names, exts, 3);
    SelectByStep(names, exts, 4);
    SelectByStep(names, exts, 5);
    assert exts[..6] == exts;
  }

  /** A listing whose `.wav` glob is `[x]`, whose `.mp3` glob is `[y]` and whose other globs
      are empty selects `x` then `y`. */
  lemma SelectFromGlobs(names: seq<string>, x: string, y: string)
    requires Glob(names, AudioExtensions[0]) == [x] && Glob(names, AudioExtensions[1]) == [y]
    requires forall k :: 2 <= k < 6 ==> Glob(names, AudioExtensions[k]) == []
    ensures SelectAudio(names) == [x, y]
  {
    SelectBySix(names, AudioExtensions);
  }
}
