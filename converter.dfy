/**
 * The `VoiceConverter` class of voice_converter.py: the API-key check of its
 * constructor, the memoised voice catalog of `get_voices`, the request that
 * `convert_voice` sends, and `batch_convert`, which ties discovery, the
 * catalog and the conversion loop together.
 *
 * The network is not modelled: a catalog fetch is a `Result` handed in by the
 * caller, and performing one conversion (upload, download, writing the output
 * file) is an oracle from the call's description to the boolean it returns.
 */
module Converter {
  import opened Wrappers
  import opened Text
  import opened Paths
  import opened Catalog
  import opened Discovery
  import opened Batch

  const BASE_URL: string := "https://api.elevenlabs.io/v1"
  const API_KEY_HEADER: string := "xi-api-key"
  const DEFAULT_MODEL_ID: string := "eleven_multilingual_sts_v2"
  const DEFAULT_OUTPUT_FORMAT: string := "mp3_44100_128"

  /** The `ValueError` the constructor raises when no key is available. */
  datatype ConfigError = MissingApiKey

  /**
   * `api_key or os.getenv('ELEVENLABS_API_KEY')` followed by the `not
   * self.api_key` check: an explicit non-empty key wins, an empty or absent
   * one falls back to the environment, and an empty or absent environment
   * value is an error.
   */
  function ResolveApiKey(explicitKey: Option<string>, envKey: Option<string>): (r: Result<string, ConfigError>)
    ensures r.Success? <==> (explicitKey.Some? && explicitKey.value != "") || (envKey.Some? && envKey.value != "")
    ensures r.Success? ==> r.value != ""
    ensures r.Success? ==> r.value == (if explicitKey.Some? && explicitKey.value != "" then explicitKey.value else envKey.value)
  {
    var key := if explicitKey.Some? && explicitKey.value != "" then explicitKey else envKey;
    if key.None? || key.value == "" then Failure(MissingApiKey) else Success(key.value)
  }

  /** `{"xi-api-key": api_key}`. */
  function Headers(apiKey: string): map<string, string> {
    map[API_KEY_HEADER := apiKey]
  }

  /** `str(b)` for a Python bool. */
  function PyStr(b: bool): string {
    if b then "True" else "False"
  }

  /** `str(remove_background_noise).lower()`: the query value is `true` or `false`. */
  function BoolParam(b: bool): (r: string)
    ensures r == (if b then "true" else "false")
  {
    var s := PyStr(b);
    var r := Lower(s);
    LowerChars(s);
    r
  }

  /** The query parameters of the conversion request. */
  function RequestParams(modelId: string, outputFormat: string, removeBackgroundNoise: bool): (params: map<string, string>)
    ensures params.Keys == {"model_id", "output_format", "remove_background_noise"}
    ensures params["model_id"] == modelId && params["output_format"] == outputFormat
    ensures params["remove_background_noise"] == BoolParam(removeBackgroundNoise)
  {
    map["model_id" := modelId, "output_format" := outputFormat,
        "remove_background_noise" := BoolParam(removeBackgroundNoise)]
  }

  /** `f"{self.base_url}/speech-to-speech/{voice_id}"`. */
  function ConversionUrl(baseUrl: string, voiceId: string): string {
    baseUrl + "/speech-to-speech/" + voiceId
  }

  /** Different voice IDs are posted to different URLs. */
  lemma ConversionUrlInjective(baseUrl: string, id1: string, id2: string)
    requires ConversionUrl(baseUrl, id1) == ConversionUrl(baseUrl, id2)
    ensures id1 == id2
  {
    var prefix := baseUrl + "/speech-to-speech/";
    assert ConversionUrl(baseUrl, id1)[|prefix|..] == id1;
    assert ConversionUrl(baseUrl, id2)[|prefix|..] == id2;
  }

  /**
   * Everything one `convert_voice` call hands to the outside world: the POST
   * (URL, headers, query parameters, the uploaded file and the name it is
   * uploaded under) and the file the response is written to.
   */
  datatype VoiceCall = VoiceCall(url: string, headers: map<string, string>, params: map<string, string>,
                                 inputFile: FilePath, uploadName: string, outputFile: FilePath)

  /**
   * The call `batch_convert` makes for a job, from the converter's base URL
   * and headers: the default model, format and noise setting.
   */
  function CallFor(baseUrl: string, headers: map<string, string>, job: Job): VoiceCall {
    VoiceCall(ConversionUrl(baseUrl, job.voiceId), headers,
              RequestParams(DEFAULT_MODEL_ID, DEFAULT_OUTPUT_FORMAT, false),
              job.input, job.input.name, job.output)
  }

  /**
   * The call records the whole job: two different jobs never make the same
   * call, so an oracle over calls is an oracle over jobs.
   */
  lemma CallForInjective(baseUrl: string, headers: map<string, string>, j1: Job, j2: Job)
    requires CallFor(baseUrl, headers, j1) == CallFor(baseUrl, headers, j2)
    ensures j1 == j2
  {
    ConversionUrlInjective(baseUrl, j1.voiceId, j2.voiceId);
  }

  /** `self.convert_voice(...)` as `batch_convert` uses it, given what performing a call returns. */
  function ConvertVoice(baseUrl: string, headers: map<string, string>, perform: VoiceCall -> bool): Job -> bool {
    job => perform(CallFor(baseUrl, headers, job))
  }

  /** One `get_voices` call: the new cache, what it returns (or raises), and whether it fetched. */
  datatype Fetch = Fetch(cache: Option<seq<Voice>>, voices: Result<seq<Voice>, FetchError>, fetched: bool)

  /**
   * `get_voices` as a function of the cache and of the answer the remote
   * would give: it fetches exactly when nothing is cached, a cached list is
   * returned as it is, a fetched list is cached, and a failed fetch raises
   * and leaves the cache empty.
   */
  function GetVoicesStep(cache: Option<seq<Voice>>, remote: Result<seq<Voice>, FetchError>): (f: Fetch)
    ensures f.fetched <==> cache.None?
    ensures cache.Some? ==> f.cache == cache && f.voices == Success(cache.value)
    ensures f.voices.Success? ==> f.cache == Some(f.voices.value)
    ensures cache.None? ==> f.voices == remote
    ensures f.voices.Failure? ==> f.cache == None
  {
    match cache
    case Some(voices) => Fetch(cache, Success(voices), false)
    case None =>
      match remote
      case Success(voices) => Fetch(Some(voices), remote, true)
      case Failure(_) => Fetch(None, remote, true)
  }

  /** The outcome of a sequence of `get_voices` calls: final cache, the results in order, the number of fetches. */
  datatype Session = Session(cache: Option<seq<Voice>>, results: seq<Result<seq<Voice>, FetchError>>, fetches: nat)

  /** Successive `get_voices` calls, the i-th answered by `remotes[i]` when it fetches. */
  function GetVoicesRun(cache: Option<seq<Voice>>, remotes: seq<Result<seq<Voice>, FetchError>>): (s: Session)
    ensures |s.results| == |remotes|
    ensures s.fetches <= |remotes|
    decreases remotes
  {
    if remotes == [] then Session(cache, [], 0)
    else
      var f := GetVoicesStep(cache, remotes[0]);
      var rest := GetVoicesRun(f.cache, remotes[1..]);
      Session(rest.cache, [f.voices] + rest.results, (if f.fetched then 1 else 0) + rest.fetches)
  }

  /** Once the catalog is cached, no call fetches and every call returns the cached list. */
  lemma {:induction false} CachedRunFetchesNothing(voices: seq<Voice>, remotes: seq<Result<seq<Voice>, FetchError>>)
    ensures GetVoicesRun(Some(voices), remotes).fetches == 0
    ensures GetVoicesRun(Some(voices), remotes).cache == Some(voices)
    ensures forall k :: 0 <= k < |remotes| ==> GetVoicesRun(Some(voices), remotes).results[k] == Success(voices)
  {
    if remotes != [] {
      CachedRunFetchesNothing(voices, remotes[1..]);
    }
  }

  /**
   * Starting empty, a first successful fetch is the only fetch: every later
   * call returns the identical list.
   */
  lemma FirstFetchIsLast(remotes: seq<Result<seq<Voice>, FetchError>>)
    requires remotes != [] && remotes[0].Success?
    ensures GetVoicesRun(None, remotes).fetches == 1
    ensures forall k :: 0 <= k < |remotes| ==> GetVoicesRun(None, remotes).results[k] == remotes[0]
  {
    CachedRunFetchesNothing(remotes[0].value, remotes[1..]);
  }

  /** While fetches fail nothing is cached, so every call fetches again. */
  lemma {:induction false} FailedFetchesRetry(remotes: seq<Result<seq<Voice>, FetchError>>)
    requires forall k :: 0 <= k < |remotes| ==> remotes[k].Failure?
    ensures GetVoicesRun(None, remotes) == Session(None, remotes, |remotes|)
  {
    if remotes != [] {
      FailedFetchesRetry(remotes[1..]);
      assert [remotes[0]] + remotes[1..] == remotes;
    }
  }

  /** What `batch_convert` returns when the catalog is available. */
  function BatchOutcome(inputFolder: string, outputFolder: string, voiceIds: seq<string>, files: seq<string>,
                        voices: seq<Voice>, convert: Job -> bool): BatchResult
  {
    if files == [] then BatchResult([], [])
    else
      var p := Plan(inputFolder, outputFolder, NameMap(voices));
      BatchResult(SuccessNames(p, files, voiceIds, convert), FailureLines(p, Jobs(p, files, voiceIds), convert))
  }

  /**
   * For a run with discovered files, the success list holds exactly the
   * files all of whose conversions succeeded, and there is one failure line
   * per failed call, F * V calls in all.
   */
  lemma BatchOutcomeCounts(inputFolder: string, outputFolder: string, voiceIds: seq<string>, files: seq<string>,
                           voices: seq<Voice>, convert: Job -> bool)
    requires files != []
    ensures var p := Plan(inputFolder, outputFolder, NameMap(voices));
            var r := BatchOutcome(inputFolder, outputFolder, voiceIds, files, voices, convert);
            |Jobs(p, files, voiceIds)| == |files| * |voiceIds|
            && |r.failed| == |FailingCalls(Jobs(p, files, voiceIds), convert)|
            && (forall x :: x in r.success <==> x in files && FileConverted(p, x, voiceIds, convert))
  {
    var p := Plan(inputFolder, outputFolder, NameMap(voices));
    JobsCount(p, files, voiceIds);
    FailureLinesCount(p, Jobs(p, files, voiceIds), convert);
    SuccessMembers(p, files, voiceIds, convert);
  }

  class VoiceConverter {
    const apiKey: string
    const baseUrl: string
    const headers: map<string, string>
    /** `_voices_cache`. */
    var voicesCache: Option<seq<Voice>>
    /** The number of catalog fetches made so far. */
    ghost var fetches: nat

    /** The constructor once a key has been resolved. */
    constructor(apiKey: string)
      requires apiKey != ""
      ensures this.apiKey == apiKey && baseUrl == BASE_URL && headers == Headers(apiKey)
      ensures voicesCache == None && fetches == 0
    {
      this.apiKey := apiKey;
      baseUrl := BASE_URL;
      headers := Headers(apiKey);
      voicesCache := None;
      fetches := 0;
    }

    /** `VoiceConverter(api_key)`: raises exactly when `ResolveApiKey` fails. */
    static method Create(explicitKey: Option<string>, envKey: Option<string>) returns (r: Result<VoiceConverter, ConfigError>)
      ensures r.Failure? <==> ResolveApiKey(explicitKey, envKey).Failure?
      ensures r.Success? ==> fresh(r.value) && r.value.apiKey == ResolveApiKey(explicitKey, envKey).value
      ensures r.Success? ==> r.value.voicesCache == None && r.value.fetches == 0
      ensures r.Success? ==> r.value.baseUrl == BASE_URL && r.value.headers == Headers(r.value.apiKey)
    {
      var key := ResolveApiKey(explicitKey, envKey);
      if key.Failure? {
        return Failure(key.error);
      }
      var c := new VoiceConverter(key.value);
      r := Success(c);
    }

    /** `get_voices`: one step of `GetVoicesStep`, counting the fetch when it makes one. */
    method GetVoices(remote: Result<seq<Voice>, FetchError>) returns (r: Result<seq<Voice>, FetchError>)
      modifies this
      ensures var f := GetVoicesStep(old(voicesCache), remote);
              r == f.voices && voicesCache == f.cache && fetches == old(fetches) + (if f.fetched then 1 else 0)
    {
      if voicesCache.None? {
        fetches := fetches + 1;
        if remote.Failure? {
          return remote;
        }
        voicesCache := Some(remote.value);
      }
      r := Success(voicesCache.value);
    }

    /**
     * `batch_convert`. With no discovered file it returns empty lists and
     * neither reads the catalog nor converts anything; otherwise it reads the
     * catalog (which raises when a needed fetch fails) and runs
     * `ConvertAll`. `calls` is the trace of `convert_voice` calls.
     */
    method BatchConvert(inputFolder: string, outputFolder: string, voiceIds: seq<string>,
                        formats: Option<seq<string>>, listing: seq<string>,
                        remote: Result<seq<Voice>, FetchError>, perform: VoiceCall -> bool)
      returns (r: Result<BatchResult, FetchError>, ghost calls: seq<Job>)
      modifies this
      ensures var files := Discover(listing, FormatsOrDefault(formats));
              files == [] ==> r == Success(BatchResult([], [])) && calls == []
                              && voicesCache == old(voicesCache) && fetches == old(fetches)
      ensures var files := Discover(listing, FormatsOrDefault(formats));
              var f := GetVoicesStep(old(voicesCache), remote);
              files != [] ==> voicesCache == f.cache && fetches == old(fetches) + (if f.fetched then 1 else 0)
                              && (f.voices.Failure? ==> r == Failure(f.voices.error) && calls == [])
                              && (f.voices.Success? ==>
                                    calls == Jobs(Plan(inputFolder, outputFolder, NameMap(f.voices.value)), files, voiceIds)
                                    && r == Success(BatchOutcome(inputFolder, outputFolder, voiceIds, files, f.voices.value,
                                                                 ConvertVoice(baseUrl, headers, perform))))
    {
      var audioFiles := CollectAudioFiles(listing, FormatsOrDefault(formats));
      if audioFiles == [] {
        return Success(BatchResult([], [])), [];
      }
      var voices := GetVoices(remote);
      if voices.Failure? {
        return Failure(voices.error), [];
      }
      var p := Plan(inputFolder, outputFolder, NameMap(voices.value));
      var success, failed;
      success, failed, calls := ConvertAll(p, audioFiles, voiceIds, ConvertVoice(baseUrl, headers, perform));
      r := Success(BatchResult(success, failed));
    }
  }
}
