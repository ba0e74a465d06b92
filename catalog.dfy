/**
 * The voice catalog returned by the remote `GET /voices`, and the two views
 * the converter derives from it: the set of voice IDs and the ID-to-name map.
 */
module Catalog {
  import opened Wrappers

  /** One entry of the catalog; only `voiceId` and `name` are used. */
  datatype Voice = Voice(voiceId: string, name: string, category: Option<string>, description: Option<string>)

  /** Why fetching the catalog raised: an HTTP error status, a failed connection, or a body without `voices`. */
  datatype FetchError = HttpStatus(code: nat) | ConnectionFailed | MalformedBody

  /** `{v['voice_id'] for v in voices}`. */
  function CatalogIds(voices: seq<Voice>): set<string> {
    set v | v in voices :: v.voiceId
  }

  /**
   * `{v['voice_id']: v['name'] for v in voices}`: built left to right, so a
   * later entry with the same ID overwrites an earlier one.
   */
  function NameMap(voices: seq<Voice>): map<string, string> {
    if voices == [] then map[]
    else
      var last := voices[|voices| - 1];
      NameMap(voices[..|voices| - 1])[last.voiceId := last.name]
  }

  /** `voice_names.get(voice_id, voice_id)`: the catalog name, or the ID itself when unknown. */
  function VoiceName(names: map<string, string>, voiceId: string): string {
    if voiceId in names then names[voiceId] else voiceId
  }

  /** The name map has exactly the catalog's IDs as keys. */
  lemma {:induction false} NameMapKeys(voices: seq<Voice>)
    ensures NameMap(voices).Keys == CatalogIds(voices)
  {
    if voices != [] {
      var init := voices[..|voices| - 1];
      var last := voices[|voices| - 1];
      NameMapKeys(init);
      assert voices == init + [last];
      forall id | id in CatalogIds(voices) ensures id in CatalogIds(init) + {last.voiceId} {
        var v :| v in voices && v.voiceId == id;
        if v != last {
          assert v in init;
        }
      }
    }
  }

  /** Each ID maps to the name of the last catalog entry carrying it: a later duplicate overwrites an earlier one. */
  lemma {:induction false} NameMapLastWins(voices: seq<Voice>)
    ensures forall k :: 0 <= k < |voices| && (forall l :: k < l < |voices| ==> voices[l].voiceId != voices[k].voiceId)
              ==> voices[k].voiceId in NameMap(voices) && NameMap(voices)[voices[k].voiceId] == voices[k].name
  {
    if voices != [] {
      var init := voices[..|voices| - 1];
      NameMapLastWins(init);
      forall k | 0 <= k < |voices| && (forall l :: k < l < |voices| ==> voices[l].voiceId != voices[k].voiceId)
        ensures voices[k].voiceId in NameMap(voices) && NameMap(voices)[voices[k].voiceId] == voices[k].name
      {
        if k < |voices| - 1 {
          assert voices[k] == init[k];
          assert forall l :: k < l < |init| ==> init[l] == voices[l];
        }
      }
    }
  }

  /** A voice in the catalog is named by the map, never by its own ID as a fallback. */
  lemma VoiceNameInCatalog(voices: seq<Voice>, voiceId: string)
    requires voiceId in CatalogIds(voices)
    ensures exists v :: v in voices && v.voiceId == voiceId && VoiceName(NameMap(voices), voiceId) == v.name
  {
    NameMapLastWins(voices);
    var k :| 0 <= k < |voices| && voices[k].voiceId == voiceId;
    while k + 1 < |voices| && exists l :: k < l < |voices| && voices[l].voiceId == voiceId
      invariant 0 <= k < |voices| && voices[k].voiceId == voiceId
      decreases |voices| - k
    {
      var l :| k < l < |voices| && voices[l].voiceId == voiceId;
      k := l;
    }
    assert voices[k] in voices;
  }
}
