/**
 * Discovery of the audio files in the input folder (voice_converter.py,
 * `batch_convert`): for each extension, in list order, the entries matching
 * `*{ext}` and then those matching `*{ext.upper()}`.
 *
 * The folder is an abstract listing of entry names in the order the file
 * system returns them; `Path.glob("*" + ext)` is the entries of that listing
 * ending with `ext`, compared case-sensitively.
 */
module Discovery {
  import opened Wrappers
  import opened Text
  import opened Seqs

  /** The default `supported_formats`. */
  const DEFAULT_FORMATS: seq<string> := [".mp3", ".wav", ".m4a", ".flac", ".aac", ".ogg"]

  /** `supported_formats`, with `None` replaced by the default list. */
  function FormatsOrDefault(formats: Option<seq<string>>): seq<string> {
    if formats.None? then DEFAULT_FORMATS else formats.value
  }

  /** The test `*{ext}` applies to an entry name. */
  function HasExtension(ext: string): string -> bool {
    x => EndsWith(x, ext)
  }

  /** `input_path.glob("*" + ext)` over the listing: the entries ending with `ext`, in listing order. */
  function Glob(listing: seq<string>, ext: string): seq<string> {
    Filter(listing, HasExtension(ext))
  }

  /** Glob keeps exactly the entries of the listing that end with the extension, and no more of them. */
  lemma GlobMembers(listing: seq<string>, ext: string)
    ensures |Glob(listing, ext)| <= |listing|
    ensures forall x :: x in Glob(listing, ext) <==> x in listing && EndsWith(x, ext)
  {
    FilterMembers(listing, HasExtension(ext));
  }

  /** Nothing is globbed from a listing none of whose entries ends with the extension. */
  lemma GlobNone(listing: seq<string>, ext: string)
    requires forall x :: x in listing ==> !EndsWith(x, ext)
    ensures Glob(listing, ext) == []
  {
    forall k | 0 <= k < |listing| ensures !HasExtension(ext)(listing[k]) {
      assert listing[k] in listing;
    }
    FilterNone(listing, HasExtension(ext));
  }

  /** The matches of one extension: exact spelling first, then upper case. */
  function GlobBothCases(listing: seq<string>, ext: string): seq<string> {
    Glob(listing, ext) + Glob(listing, Upper(ext))
  }

  /** The block one extension adds to `audio_files`. */
  function ExtensionMatches(listing: seq<string>): string -> seq<string> {
    ext => GlobBothCases(listing, ext)
  }

  /** The `audio_files` list the discovery loop builds. */
  function Discover(listing: seq<string>, formats: seq<string>): seq<string> {
    FlatMap(formats, ExtensionMatches(listing))
  }

  /**
   * The discovery loop: for each extension in turn, `audio_files` is
   * extended with its exact-case matches and then its upper-case matches.
   */
  method CollectAudioFiles(listing: seq<string>, formats: seq<string>) returns (audioFiles: seq<string>)
    ensures audioFiles == Discover(listing, formats)
  {
    audioFiles := [];
    for i := 0 to |formats|
      invariant audioFiles == Discover(listing, formats[..i])
    {
      var ext := formats[i];
      assert formats[..i + 1] == formats[..i] + [ext];
      FlatMapSnoc(formats[..i], ext, ExtensionMatches(listing));
      audioFiles := audioFiles + Glob(listing, ext);
      audioFiles := audioFiles + Glob(listing, Upper(ext));
    }
    assert formats[..|formats|] == formats;
  }

  /** `MatchesFormat(x, e)`: the name ends with the extension or with its upper-case form. */
  predicate MatchesFormat(x: string, ext: string) {
    EndsWith(x, ext) || EndsWith(x, Upper(ext))
  }

  /** A name is matched by one extension's block exactly when it is in the listing and matches the extension. */
  lemma GlobBothCasesMembers(listing: seq<string>, ext: string)
    ensures forall x :: x in GlobBothCases(listing, ext) <==> x in listing && MatchesFormat(x, ext)
  {
    GlobMembers(listing, ext);
    GlobMembers(listing, Upper(ext));
  }

  /**
   * A name is discovered exactly when it is in the listing and ends with one
   * of the extensions as given or upper-cased.
   */
  lemma DiscoverMembers(listing: seq<string>, formats: seq<string>)
    ensures forall x :: x in Discover(listing, formats) <==>
              x in listing && exists e :: e in formats && MatchesFormat(x, e)
  {
    FlatMapMembers(formats, ExtensionMatches(listing));
    forall x ensures x in Discover(listing, formats) <==>
                     x in listing && exists e :: e in formats && MatchesFormat(x, e)
    {
      if x in Discover(listing, formats) {
        var i :| 0 <= i < |formats| && x in ExtensionMatches(listing)(formats[i]);
        GlobBothCasesMembers(listing, formats[i]);
      }
      if x in listing && exists e :: e in formats && MatchesFormat(x, e) {
        var e :| e in formats && MatchesFormat(x, e);
        var i :| 0 <= i < |formats| && formats[i] == e;
        GlobBothCasesMembers(listing, e);
        assert x in ExtensionMatches(listing)(formats[i]);
      }
    }
  }

  /** The discovered list is made of the extensions' blocks, in the order of the extensions. */
  lemma DiscoverAppend(listing: seq<string>, f1: seq<string>, f2: seq<string>)
    ensures Discover(listing, f1 + f2) == Discover(listing, f1) + Discover(listing, f2)
  {
    FlatMapAppend(f1, f2, ExtensionMatches(listing));
  }

  /** Glob keeps the listing's order: globbing a split listing globs each part. */
  lemma GlobAppend(l1: seq<string>, l2: seq<string>, ext: string)
    ensures Glob(l1 + l2, ext) == Glob(l1, ext) + Glob(l2, ext)
  {
    FilterAppend(l1, l2, HasExtension(ext));
  }

  /** Nothing is discovered when no entry of the listing matches any of the extensions. */
  lemma DiscoverNone(listing: seq<string>, formats: seq<string>)
    requires forall x, e :: x in listing && e in formats ==> !MatchesFormat(x, e)
    ensures Discover(listing, formats) == []
  {
    forall i | 0 <= i < |formats| ensures ExtensionMatches(listing)(formats[i]) == [] {
      var e := formats[i];
      assert e in formats;
      GlobNone(listing, e);
      GlobNone(listing, Upper(e));
    }
    FlatMapNone(formats, ExtensionMatches(listing));
  }

  /** With an empty listing nothing is discovered, whatever the extensions. */
  lemma DiscoverEmptyListing(formats: seq<string>)
    ensures Discover([], formats) == []
  {
    DiscoverNone([], formats);
  }

  /**
   * Matching is not case-insensitive: a mixed-case extension such as `.Mp3`
   * matches neither `*.mp3` nor `*.MP3`, so the file is not discovered.
   */
  lemma MixedCaseMissed()
    ensures Discover(["a.Mp3"], DEFAULT_FORMATS) == []
  {
    var x := "a.Mp3";
    assert x[1..] == ".Mp3" && x[0..] == x;
    forall e | e in DEFAULT_FORMATS ensures !MatchesFormat(x, e) {
      var u := Upper(e);
      UpperChars(e);
      assert u[0] == UpperChar(e[0]) && u[1] == UpperChar(e[1]) && u[2] == UpperChar(e[2]);
      if |e| == 4 {
        assert x[1..][1] == 'M' && x[1..][2] == 'p';
      }
    }
    DiscoverNone([x], DEFAULT_FORMATS);
  }

  /**
   * An extension that is already upper case (no lower-case letter) is globbed
   * twice, so each matching file is discovered, and converted, twice.
   */
  lemma UpperCaseExtensionTwice(listing: seq<string>, ext: string)
    requires forall k :: 0 <= k < |ext| ==> !('a' <= ext[k] <= 'z')
    ensures Discover(listing, [ext]) == Glob(listing, ext) + Glob(listing, ext)
  {
    UpperFixedIff(ext);
    FlatMapSnoc([], ext, ExtensionMatches(listing));
    assert [] + [ext] == [ext];
  }
}
