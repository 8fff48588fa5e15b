/**
 * `src/hooks/useAudioPlayback.ts`: the single audio slot of the player.
 * Audio elements are modelled by the path they were created with; their
 * events and the playback promise are not part of this model.
 */
module AudioPlayback {
  import opened Wrappers
  import opened Filename

  /** `/audio/${sanitizeFilename(word)}.mp3`. */
  function AudioPath(englishWord: string): (p: string)
    ensures p == "/audio/" + FileName(englishWord)
  {
    "/audio/" + Sanitize(englishWord) + ".mp3"
  }

  /** Words that sanitize alike share one file: the path depends on the sanitized name only. */
  lemma SamePathForSameName(a: string, b: string)
    ensures AudioPath(a) == AudioPath(b) <==> Sanitize(a) == Sanitize(b)
  {
    var pa, pb := AudioPath(a), AudioPath(b);
    if pa == pb {
      assert pa[7..|pa| - 4] == Sanitize(a);
      assert pb[7..|pb| - 4] == Sanitize(b);
    }
  }

  class Player {
    /** `audioRef.current`: the path of the held audio, if any. */
    var current: Option<string>
    var isPlaying: bool
    /** The audios paused so far, oldest first. */
    var paused: seq<string>

    constructor ()
      ensures current == None && !isPlaying && paused == []
    {
      current := None;
      isPlaying := false;
      paused := [];
    }

    /** `play`: pause and drop the held audio, then hold exactly one new one for the word. */
    method Play(englishWord: string)
      modifies this
      ensures current == Some(AudioPath(englishWord))
      ensures paused == old(paused) + (if old(current).Some? then [old(current).value] else [])
      ensures isPlaying == old(isPlaying)
    {
      if current.Some? {
        paused := paused + [current.value];
        current := None;
      }
      var filename := Sanitize(englishWord);
      current := Some("/audio/" + filename + ".mp3");
    }

    /** `stop`: with audio held, pause it, drop it and clear `isPlaying`; otherwise nothing. */
    method Stop()
      modifies this
      ensures old(current).None? ==> current == old(current) && isPlaying == old(isPlaying) && paused == old(paused)
      ensures old(current).Some? ==> current == None && !isPlaying && paused == old(paused) + [old(current).value]
    {
      if current.Some? {
        paused := paused + [current.value];
        current := None;
        isPlaying := false;
      }
    }
  }
}
