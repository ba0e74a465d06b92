/**
 * The command-line flow of `main` (voice_converter.py): build the converter,
 * read the catalog, check the input folder, parse and validate the voice IDs
 * typed by the user, and run the batch.
 *
 * The console is not modelled: what the user types arrives as strings, the
 * existence test of the input folder is a predicate over folder names, and
 * the folder's listing is a sequence of entry names.
 */
module Cli {
  import opened Wrappers
  import opened Seqs
  import opened Text
  import opened Catalog
  import opened Discovery
  import opened Batch
  import opened Converter

  /** A voice ID as `main` can produce it: non-empty, stripped and free of commas. */
  predicate CleanId(id: string) {
    id != [] && Stripped(id) && ',' !in id
  }

  /** Every character of `s.strip()` comes from `s`. */
  lemma StripWithin(s: string, c: char)
    requires c in Strip(s)
    ensures c in s
  {
    var a := StripSlice(s);
    var r := Strip(s);
    var i :| 0 <= i < |r| && r[i] == c;
    assert s[a + i] == c;
  }

  /** What one comma-separated piece contributes: its strip, unless that is empty. */
  function StripBlock(piece: string): seq<string> {
    var id := Strip(piece);
    if id == [] then [] else [id]
  }

  /**
   * `[vid.strip() for vid in raw.strip().split(',') if vid.strip()]`: every
   * ID is non-empty, stripped and free of commas.
   */
  function ParseVoiceIds(raw: string): (ids: seq<string>)
    ensures forall k :: 0 <= k < |ids| ==> CleanId(ids[k])
  {
    var pieces := SplitOn(Strip(raw), ',');
    var ids := FlatMap(pieces, StripBlock);
    FlatMapMembers(pieces, StripBlock);
    assert forall k :: 0 <= k < |ids| ==> CleanId(ids[k]) by {
      forall k | 0 <= k < |ids| ensures CleanId(ids[k]) {
        assert ids[k] in ids;
        var i :| 0 <= i < |pieces| && ids[k] in StripBlock(pieces[i]);
        if ',' in ids[k] {
          StripWithin(pieces[i], ',');
        }
      }
    }
    ids
  }

  /** The parsed IDs are exactly the non-empty strips of the comma-separated pieces. */
  lemma ParseVoiceIdsMembers(raw: string)
    ensures forall x :: x in ParseVoiceIds(raw) <==>
              x != [] && exists p :: p in SplitOn(Strip(raw), ',') && Strip(p) == x
  {
    var pieces := SplitOn(Strip(raw), ',');
    var ids := FlatMap(pieces, StripBlock);
    assert ParseVoiceIds(raw) == ids;
    FlatMapMembers(pieces, StripBlock);
    forall x ensures x in ids <==> x != [] && exists p :: p in pieces && Strip(p) == x {
      if x in ids {
        var i :| 0 <= i < |pieces| && x in StripBlock(pieces[i]);
        assert pieces[i] in pieces;
      }
      if x != [] && exists p :: p in pieces && Strip(p) == x {
        var p :| p in pieces && Strip(p) == x;
        var i :| 0 <= i < |pieces| && pieces[i] == p;
        assert x in StripBlock(pieces[i]);
      }
    }
  }

  /** Pieces that are already non-empty and stripped are kept as they are. */
  lemma {:induction false} StripBlockClean(pieces: seq<string>)
    requires forall k :: 0 <= k < |pieces| ==> pieces[k] != [] && Stripped(pieces[k])
    ensures FlatMap(pieces, StripBlock) == pieces
  {
    if pieces != [] {
      var n := |pieces| - 1;
      StripBlockClean(pieces[..n]);
      StripStripped(pieces[n]);
    }
  }

  /** A comma-joined list of non-empty pieces starts with the first piece's first character and ends with the last piece's last character. */
  lemma {:induction false} JoinEnds(pieces: seq<string>, sep: char)
    requires |pieces| >= 1 && forall k :: 0 <= k < |pieces| ==> pieces[k] != []
    ensures Join(pieces, sep) != []
    ensures Join(pieces, sep)[0] == pieces[0][0]
    ensures Join(pieces, sep)[|Join(pieces, sep)| - 1] == pieces[|pieces| - 1][|pieces[|pieces| - 1]| - 1]
  {
    if |pieces| > 1 {
      JoinEnds(pieces[1..], sep);
    }
  }

  /**
   * Typing clean IDs separated by commas gives them back: parsing inverts
   * `','.join` on lists of non-empty, stripped, comma-free IDs.
   */
  lemma ParseJoin(ids: seq<string>)
    requires forall k :: 0 <= k < |ids| ==> CleanId(ids[k])
    ensures ParseVoiceIds(Join(ids, ',')) == ids
  {
    if ids == [] {
      assert SplitOn(Strip([]), ',') == [[]];
    } else {
      var s := Join(ids, ',');
      JoinEnds(ids, ',');
      StripStripped(s);
      SplitJoin(ids, ',');
      StripBlockClean(ids);
    }
  }

  /** The membership test against `available_voices`. */
  function InCatalog(available: set<string>): string -> bool {
    id => id in available
  }

  /** Its negation, which selects the IDs the warning names. */
  function NotInCatalog(available: set<string>): string -> bool {
    id => id !in available
  }

  /** `[vid for vid in voice_ids if vid in available_voices]`. */
  function KeepAvailable(ids: seq<string>, available: set<string>): seq<string> {
    Filter(ids, InCatalog(available))
  }

  /** `[vid for vid in voice_ids if vid not in available_voices]`. */
  function InvalidIds(ids: seq<string>, available: set<string>): seq<string> {
    Filter(ids, NotInCatalog(available))
  }

  /** The kept IDs are those in the catalog, the invalid ones the others; neither list is longer than the input. */
  lemma CatalogSplit(ids: seq<string>, available: set<string>)
    ensures |KeepAvailable(ids, available)| <= |ids|
    ensures forall x :: x in KeepAvailable(ids, available) <==> x in ids && x in available
    ensures forall x :: x in InvalidIds(ids, available) <==> x in ids && x !in available
  {
    FilterMembers(ids, InCatalog(available));
    FilterMembers(ids, NotInCatalog(available));
  }

  /** With no invalid ID, filtering keeps the whole list, in order. */
  lemma KeepAvailableAll(ids: seq<string>, available: set<string>)
    requires forall k :: 0 <= k < |ids| ==> ids[k] in available
    ensures KeepAvailable(ids, available) == ids
  {
    FilterAll(ids, InCatalog(available));
  }

  /** Filtering clean IDs leaves clean IDs, all of them in the catalog. */
  lemma KeptIdsValid(ids: seq<string>, available: set<string>)
    requires forall k :: 0 <= k < |ids| ==> CleanId(ids[k])
    ensures var kept := KeepAvailable(ids, available);
            forall k :: 0 <= k < |kept| ==> CleanId(kept[k]) && kept[k] in available
  {
    var kept := KeepAvailable(ids, available);
    CatalogSplit(ids, available);
    forall k | 0 <= k < |kept| ensures CleanId(kept[k]) && kept[k] in available {
      assert kept[k] in kept;
      var j :| 0 <= j < |ids| && ids[j] == kept[k];
    }
  }

  /** Filtering keeps the order of the IDs: the kept IDs of a split list are those of each part. */
  lemma KeepAvailableAppend(a: seq<string>, b: seq<string>, available: set<string>)
    ensures KeepAvailable(a + b, available) == KeepAvailable(a, available) + KeepAvailable(b, available)
  {
    FilterAppend(a, b, InCatalog(available));
  }

  /** Why `main` stops before converting. */
  datatype CliError = NoVoiceIds | NoValidVoiceIds

  /**
   * The checks of `main` on the parsed IDs: none at all is an error; when
   * some are not in the catalog they are dropped, and nothing left is an
   * error; what remains is used in the order typed.
   */
  function ValidateVoiceIds(ids: seq<string>, available: set<string>): (r: Result<seq<string>, CliError>)
    ensures r == Failure(NoVoiceIds) <==> ids == []
    ensures r == Failure(NoValidVoiceIds) <==> ids != [] && forall k :: 0 <= k < |ids| ==> ids[k] !in available
    ensures r.Success? ==> r.value == KeepAvailable(ids, available) && r.value != []
  {
    CatalogSplit(ids, available);
    if ids == [] then Failure(NoVoiceIds)
    else if InvalidIds(ids, available) == [] then
      assert ids[0] in ids;
      assert forall k :: 0 <= k < |ids| ==> ids[k] in available by {
        forall k | 0 <= k < |ids| ensures ids[k] in available {
          assert ids[k] in ids;
        }
      }
      KeepAvailableAll(ids, available);
      Success(ids)
    else
      var kept := KeepAvailable(ids, available);
      assert (exists k :: 0 <= k < |ids| && ids[k] in available) ==> kept != [] by {
        if exists k :: 0 <= k < |ids| && ids[k] in available {
          var k :| 0 <= k < |ids| && ids[k] in available;
          assert ids[k] in kept;
        }
      }
      assert kept != [] ==> kept[0] in kept;
      if kept == [] then Failure(NoValidVoiceIds) else Success(kept)
  }

  /** How `main` ends. */
  datatype Outcome =
    | NoApiKey
      /** `list_voices` raised: the fetch error escapes `main`. */
    | CatalogError(fetchError: FetchError)
    | FolderMissing(folder: string)
    | InputRejected(inputError: CliError)
    | Completed(inputFolder: string, outputFolder: string, targets: seq<string>, result: BatchResult)

  /**
   * What `main` does, as a function of its inputs: the environment key, the
   * catalog the first fetch returns, the three lines typed (input folder,
   * output folder, voice IDs), which folders exist, the input folder's
   * listing, and what performing each conversion call returns.
   */
  function MainOutcome(envKey: Option<string>, remote: Result<seq<Voice>, FetchError>,
                       rawInputFolder: string, folderExists: string -> bool, rawOutputFolder: string,
                       rawVoiceIds: string, listing: seq<string>, perform: VoiceCall -> bool): Outcome
  {
    match ResolveApiKey(None, envKey)
    case Failure(_) => NoApiKey
    case Success(key) =>
      match remote
      case Failure(e) => CatalogError(e)
      case Success(voices) =>
        var inputFolder := Strip(rawInputFolder);
        var outputFolder := Strip(rawOutputFolder);
        if !folderExists(inputFolder) then FolderMissing(inputFolder)
        else
          match ValidateVoiceIds(ParseVoiceIds(rawVoiceIds), CatalogIds(voices))
          case Failure(e) => InputRejected(e)
          case Success(targets) =>
            var files := Discover(listing, DEFAULT_FORMATS);
            Completed(inputFolder, outputFolder, targets,
                      BatchOutcome(inputFolder, outputFolder, targets, files, voices, ConvertVoice(BASE_URL, Headers(key), perform)))
  }

  /**
   * `main`. The catalog is fetched once, by `list_voices`; the later reads
   * (validation and `batch_convert`) are served from the cache.
   */
  method Run(envKey: Option<string>, remote: Result<seq<Voice>, FetchError>,
             rawInputFolder: string, folderExists: string -> bool, rawOutputFolder: string,
             rawVoiceIds: string, listing: seq<string>, perform: VoiceCall -> bool)
    returns (outcome: Outcome, ghost fetches: nat)
    ensures outcome == MainOutcome(envKey, remote, rawInputFolder, folderExists, rawOutputFolder, rawVoiceIds, listing, perform)
    ensures fetches == (if ResolveApiKey(None, envKey).Success? then 1 else 0)
  {
    var created := VoiceConverter.Create(None, envKey);
    if created.Failure? {
      return NoApiKey, 0;
    }
    var converter := created.value;
    // list_voices
    var listed := converter.GetVoices(remote);
    if listed.Failure? {
      return CatalogError(listed.error), converter.fetches;
    }
    var inputFolder := Strip(rawInputFolder);
    if !folderExists(inputFolder) {
      return FolderMissing(inputFolder), converter.fetches;
    }
    var outputFolder := Strip(rawOutputFolder);
    var voiceIds := ParseVoiceIds(rawVoiceIds);
    if voiceIds == [] {
      return InputRejected(NoVoiceIds), converter.fetches;
    }
    var voices := converter.GetVoices(remote);
    var available := CatalogIds(voices.value);
    var invalid := InvalidIds(voiceIds, available);
    if invalid != [] {
      voiceIds := KeepAvailable(voiceIds, available);
      if voiceIds == [] {
        return InputRejected(NoValidVoiceIds), converter.fetches;
      }
    }
    var result, calls := converter.BatchConvert(inputFolder, outputFolder, voiceIds, None, listing, remote, perform);
    outcome := Completed(inputFolder, outputFolder, voiceIds, result.value);
    fetches := converter.fetches;
  }

  /** `main` stops for want of a key exactly when the environment has no non-empty key. */
  lemma MainNoKeyIff(envKey: Option<string>, remote: Result<seq<Voice>, FetchError>,
                     rawInputFolder: string, folderExists: string -> bool, rawOutputFolder: string,
                     rawVoiceIds: string, listing: seq<string>, perform: VoiceCall -> bool)
    ensures MainOutcome(envKey, remote, rawInputFolder, folderExists, rawOutputFolder, rawVoiceIds, listing, perform) == NoApiKey
            <==> envKey.None? || envKey.value == ""
  {
  }

  /**
   * A completed run converts to a non-empty list of clean catalog IDs: the
   * typed IDs that are in the catalog, in the order typed.
   */
  lemma MainTargets(envKey: Option<string>, remote: Result<seq<Voice>, FetchError>,
                    rawInputFolder: string, folderExists: string -> bool, rawOutputFolder: string,
                    rawVoiceIds: string, listing: seq<string>, perform: VoiceCall -> bool)
    requires MainOutcome(envKey, remote, rawInputFolder, folderExists, rawOutputFolder, rawVoiceIds, listing, perform).Completed?
    ensures remote.Success?
    ensures var targets := MainOutcome(envKey, remote, rawInputFolder, folderExists, rawOutputFolder, rawVoiceIds, listing, perform).targets;
            targets != []
            && targets == KeepAvailable(ParseVoiceIds(rawVoiceIds), CatalogIds(remote.value))
            && forall k :: 0 <= k < |targets| ==> CleanId(targets[k]) && targets[k] in CatalogIds(remote.value)
  {
    KeptIdsValid(ParseVoiceIds(rawVoiceIds), CatalogIds(remote.value));
  }

}
