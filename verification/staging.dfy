/** Naming of the per-invocation artifacts: the local copy of the video, the
    local extracted audio, and the remote object the audio is staged under.
    All are derived from a per-invocation unique prefix (in the handler the
    current time in milliseconds, `_`, and the owner), here a parameter. */
module Staging {
  import opened Wrappers
  import opened Strings
  import opened Paths

  datatype ArtifactNames = ArtifactNames(tempVideo: string, tempAudio: string, stagingPath: string)

  const AudioFolder := "extracted_audio/"

  const AudioExtension := ".wav"

  /** The base name with its extension swapped for ".wav", using JavaScript's
      `replace`: the FIRST occurrence of the extension text is replaced, and
      an empty extension puts ".wav" in front. */
  function AudioFileName(base: string): string {
    ReplaceFirst(base, Extname(base), AudioExtension)
  }

  /** The three names for one invocation. Local names are file names inside
      the temporary directory: the prefix, `_`, then the upload's base name
      or its audio name; the staging path is the owner's audio folder
      followed by the local audio name. The lengths leave no room for
      anything else in between. */
  function NamesFor(uniquePrefix: string, userId: string, filePath: string): (n: ArtifactNames)
    ensures StartsWith(n.tempVideo, uniquePrefix + "_") && StartsWith(n.tempAudio, uniquePrefix + "_")
    ensures EndsWith(n.tempVideo, Basename(filePath))
    ensures |n.tempVideo| == |uniquePrefix| + 1 + |Basename(filePath)|
    ensures EndsWith(n.tempAudio, AudioFileName(Basename(filePath)))
    ensures |n.tempAudio| == |uniquePrefix| + 1 + |AudioFileName(Basename(filePath))|
    ensures StartsWith(n.stagingPath, AudioFolder + userId + "/")
    ensures EndsWith(n.stagingPath, n.tempAudio)
    ensures |n.stagingPath| == |AudioFolder| + |userId| + 1 + |n.tempAudio|
  {
    var base := Basename(filePath);
    var video := uniquePrefix + ("_" + base);
    var audio := uniquePrefix + ("_" + AudioFileName(base));
    var folder := AudioFolder + userId + "/";
    ConcatAffixes(uniquePrefix, "_", base);
    ConcatAffixes(uniquePrefix, "_", AudioFileName(base));
    ConcatAffixes(AudioFolder + userId, "/", audio);
    ConcatAffixes(folder, audio, "");
    ArtifactNames(video, audio, folder + audio)
  }

  /** The extension of a base name occurs in it at its end. */
  lemma ExtensionOccursAtEnd(base: string)
    ensures OccursAt(base, Extname(base), |base| - |Extname(base)|)
  {
  }

  /** Whatever the base name, ".wav" stands where the extension text first
      occurs, the text before it is kept, and the name grows by the
      difference between ".wav" and the extension. */
  lemma AudioNameShape(base: string)
    ensures IndexOf(base, Extname(base)).Some?
    ensures var a := AudioFileName(base); var k := IndexOf(base, Extname(base)).value;
      |a| == |base| - |Extname(base)| + |AudioExtension| &&
      OccursAt(a, AudioExtension, k) && a[..k] == base[..k]
  {
    ExtensionOccursAtEnd(base);
    ReplaceFirstAt(base, Extname(base), AudioExtension, IndexOf(base, Extname(base)).value);
  }

  /** The extension text occurs in the base name only at its end. */
  ghost predicate ExtensionOnlyAtEnd(base: string) {
    forall k :: OccursAt(base, Extname(base), k) ==> k == |base| - |Extname(base)|
  }

  /** When the extension text appears only at the end of the base name, the
      audio name is the base name with that extension swapped for ".wav". */
  lemma AudioNameSwapsExtension(base: string)
    requires ExtensionOnlyAtEnd(base)
    ensures AudioFileName(base) == base[..|base| - |Extname(base)|] + AudioExtension
    ensures EndsWith(AudioFileName(base), AudioExtension)
  {
    ExtensionOccursAtEnd(base);
    var e := Extname(base);
    var i := IndexOf(base, e).value;
    assert i == |base| - |e|;
    assert base[i + |e|..] == "";
    var a := base[..i] + AudioExtension;
    assert a[|a| - 4..] == AudioExtension;
  }

  /** A base name without extension gets ".wav" put in FRONT of it, so the
      audio name does not end in ".wav". */
  lemma AudioNameWithoutExtension(base: string)
    requires Extname(base) == ""
    ensures AudioFileName(base) == AudioExtension + base
  {
  }

  /** The audio name equals the base name exactly when the base name's
      extension is already ".wav". */
  lemma AudioNameUnchangedIff(base: string)
    ensures AudioFileName(base) == base <==> Extname(base) == AudioExtension
  {
    var e := Extname(base);
    ExtensionOccursAtEnd(base);
    var i := IndexOf(base, e).value;
    ReplaceAtUnchangedIff(base, e, AudioExtension, i);
  }

  /** When the extension occurs only at the end of the upload's base name,
      the local audio name is the local video name with that extension
      swapped for ".wav". */
  lemma LocalAudioNameSwapsExtension(uniquePrefix: string, userId: string, filePath: string)
    requires ExtensionOnlyAtEnd(Basename(filePath))
    ensures NamesFor(uniquePrefix, userId, filePath).tempAudio ==
      NamesFor(uniquePrefix, userId, filePath).tempVideo[
        ..|NamesFor(uniquePrefix, userId, filePath).tempVideo| - |Extname(Basename(filePath))|] + AudioExtension
  {
    PrefixedAudioName(uniquePrefix, Basename(filePath));
    NamesForParts(uniquePrefix, userId, filePath);
  }

  /** The local names, as concatenations. */
  lemma NamesForParts(uniquePrefix: string, userId: string, filePath: string)
    ensures NamesFor(uniquePrefix, userId, filePath).tempVideo == uniquePrefix + ("_" + Basename(filePath))
    ensures NamesFor(uniquePrefix, userId, filePath).tempAudio == uniquePrefix + ("_" + AudioFileName(Basename(filePath)))
  {
  }

  /** The same swap, stated on the prefixed base name. */
  lemma PrefixedAudioName(p: string, base: string)
    requires ExtensionOnlyAtEnd(base)
    ensures p + ("_" + AudioFileName(base)) ==
      (p + ("_" + base))[..|p + ("_" + base)| - |Extname(base)|] + AudioExtension
  {
    AudioNameSwapsExtension(base);
    PrefixedSwap(p, base, |Extname(base)|, AudioFileName(base));
  }

  /** Swapping the last `m` characters for ".wav" commutes with putting a
      prefix in front. */
  lemma PrefixedSwap(p: string, base: string, m: nat, a: string)
    requires m <= |base| && a == base[..|base| - m] + AudioExtension
    ensures var v := p + ("_" + base);
      p + ("_" + a) == v[..|v| - m] + AudioExtension
  {
    var v := p + ("_" + base);
    assert v[..|v| - m] == p + ("_" + base[..|base| - m]);
  }

  /** The local audio file would overwrite the local video copy exactly when
      the uploaded file's extension is already ".wav". */
  lemma TempNamesCollideIff(uniquePrefix: string, userId: string, filePath: string)
    ensures var n := NamesFor(uniquePrefix, userId, filePath);
      n.tempAudio == n.tempVideo <==> Extname(Basename(filePath)) == AudioExtension
  {
    var base := Basename(filePath);
    AudioNameUnchangedIff(base);
    ConcatCancels("_" + AudioFileName(base), "_" + base, uniquePrefix);
    ConcatCancels(AudioFileName(base), base, "_");
  }

  /** For the same upload, two invocations with different prefixes get
      different local video names, different local audio names and
      different staging paths. */
  lemma PrefixesSeparateArtifacts(p1: string, p2: string, userId: string, filePath: string)
    requires p1 != p2
    ensures var n1 := NamesFor(p1, userId, filePath); var n2 := NamesFor(p2, userId, filePath);
      n1.tempVideo != n2.tempVideo && n1.tempAudio != n2.tempAudio && n1.stagingPath != n2.stagingPath
  {
    var base := Basename(filePath);
    var n1 := NamesFor(p1, userId, filePath);
    var n2 := NamesFor(p2, userId, filePath);
    ConcatCancels(p1, p2, "_" + base);
    ConcatCancels(p1, p2, "_" + AudioFileName(base));
    ConcatCancels(n1.tempAudio, n2.tempAudio, AudioFolder + userId + "/");
  }
}
