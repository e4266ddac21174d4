/**
 * The recitation player: one audio element at a time, a toggle on the ayah
 * that is already loaded, and the state the element's events set.
 *
 * Audio elements are `AudioHandle` values numbered in creation order; what
 * an element does on its own (loading, playing to the end, failing, the
 * `play()` promise rejecting) arrives as a call of the matching handler
 * with that element, in whatever order the browser produces them.
 */
module AudioPlayer {
  import opened Wrappers
  import opened Text

  /** The recitation files: Mishary Alafasy at 128 kbit/s. */
  const AUDIO_BASE: string := "https://everyayah.com/data/Alafasy_128kbps/"

  /** The key of an ayah in the player state: `surah:ayah`. */
  function AyahKey(surahNumber: int, ayahNumber: int): (k: string)
    ensures |k| == |IntToString(surahNumber)| + 1 + |IntToString(ayahNumber)|
    ensures k[|IntToString(surahNumber)|] == ':'
  {
    IntToString(surahNumber) + ":" + IntToString(ayahNumber)
  }

  /** The file of one ayah: the surah and ayah numbers, each padded to three digits. */
  function AudioFileName(surahNumber: int, ayahNumber: int): (r: string)
    ensures |r| >= 10 && r[|r| - 4..] == ".mp3"
  {
    Padded3(surahNumber) + Padded3(ayahNumber) + ".mp3"
  }

  /** The address of one ayah's recitation: the reciter's directory, then the file. */
  function AudioUrl(surahNumber: int, ayahNumber: int): (r: string)
    ensures |r| >= |AUDIO_BASE| + 10 && r[..|AUDIO_BASE|] == AUDIO_BASE
    ensures r[|AUDIO_BASE|..] == AudioFileName(surahNumber, ayahNumber)
  {
    var base := AUDIO_BASE;
    var file := AudioFileName(surahNumber, ayahNumber);
    assert (base + file)[..|base|] == base;
    assert (base + file)[|base|..] == file;
    base + file
  }

  /** `String(i)` never holds a colon. */
  lemma NoColon(i: int)
    ensures forall k :: 0 <= k < |IntToString(i)| ==> IntToString(i)[k] != ':'
  {
    var d := if i < 0 then Decimal(-i) else Decimal(i);
    assert forall k :: 0 <= k < |d| ==> IsDigit(d[k]);
  }

  /** Distinct integers are written differently. */
  lemma IntToStringInjective(i: int, j: int)
    requires IntToString(i) == IntToString(j)
    ensures i == j
  {
    if i < 0 {
      assert IntToString(i)[1..] == Decimal(-i);
      assert IntToString(j)[1..] == Decimal(-j);
      DecimalInjective(-i, -j);
    } else {
      DecimalInjective(i, j);
    }
  }

  /** Two ayahs share a player key only when they are the same ayah. */
  lemma AyahKeyInjective(s1: int, a1: int, s2: int, a2: int)
    requires AyahKey(s1, a1) == AyahKey(s2, a2)
    ensures s1 == s2 && a1 == a2
  {
    var k := AyahKey(s1, a1);
    var p1, p2 := IntToString(s1), IntToString(s2);
    NoColon(s1);
    NoColon(s2);
    assert |p1| == |p2|;
    assert p1 == k[..|p1|] == p2;
    IntToStringInjective(s1, s2);
    var q1, q2 := IntToString(a1), IntToString(a2);
    assert q1 == k[|p1| + 1..] == q2;
    IntToStringInjective(a1, a2);
  }

  /** Two names made of three-character parts and the same suffix agree part by part. */
  lemma SplitFileName(x1: string, y1: string, x2: string, y2: string)
    requires |x1| == 3 && |y1| == 3 && |x2| == 3 && |y2| == 3
    requires x1 + y1 + ".mp3" == x2 + y2 + ".mp3"
    ensures x1 == x2 && y1 == y2
  {
    var f := x1 + y1 + ".mp3";
    assert x1 == f[..3] == x2;
    assert y1 == f[3..6] == y2;
  }

  /**
   * Below 1000 (every surah and ayah number), the file name is ten
   * characters and no two ayahs share a file.
   */
  lemma AudioFileNameInjective(s1: int, a1: int, s2: int, a2: int)
    requires 0 <= s1 < 1000 && 0 <= a1 < 1000 && 0 <= s2 < 1000 && 0 <= a2 < 1000
    requires AudioFileName(s1, a1) == AudioFileName(s2, a2)
    ensures |AudioFileName(s1, a1)| == 10
    ensures s1 == s2 && a1 == a2
  {
    Padded3RoundTrip(s1);
    Padded3RoundTrip(a1);
    Padded3RoundTrip(s2);
    Padded3RoundTrip(a2);
    SplitFileName(Padded3(s1), Padded3(a1), Padded3(s2), Padded3(a2));
  }

  /** Below 1000, two ayahs share a recitation address only when they are the same ayah. */
  lemma AudioUrlInjective(s1: int, a1: int, s2: int, a2: int)
    requires 0 <= s1 < 1000 && 0 <= a1 < 1000 && 0 <= s2 < 1000 && 0 <= a2 < 1000
    requires AudioUrl(s1, a1) == AudioUrl(s2, a2)
    ensures s1 == s2 && a1 == a2
  {
    assert AudioUrl(s1, a1)[|AUDIO_BASE|..] == AudioFileName(s1, a1);
    assert AudioUrl(s2, a2)[|AUDIO_BASE|..] == AudioFileName(s2, a2);
    AudioFileNameInjective(s1, a1, s2, a2);
  }

  /**
   * An audio element: its creation number, the ayah it was created for and
   * the ayah key its event handlers report.
   */
  datatype AudioHandle = AudioHandle(id: nat, surahNumber: int, ayahNumber: int, key: string)
  {
    /** The source the element was created with. */
    function Url(): string {
      AudioUrl(surahNumber, ayahNumber)
    }
  }

  class Player {
    var isPlaying: bool
    var isLoading: bool
    var currentAyah: Option<string>
    /** The element the player holds (`audioRef.current`). */
    var audio: Option<AudioHandle>
    /** How many elements have been created. */
    var created: nat
    /** The elements that have been paused. */
    ghost var paused: set<nat>
    /** Every element created so far, by creation number. */
    ghost var elements: map<nat, AudioHandle>

    /**
     * The three states the hook can be in (idle, loading an ayah, playing
     * an ayah), a loading ayah is the one of the held element, and every
     * element other than the held one has been paused: at most one sounds.
     */
    ghost predicate Valid()
      reads this
    {
      && !(isPlaying && isLoading)
      && (currentAyah.Some? <==> isPlaying || isLoading)
      && (isLoading ==> audio.Some? && currentAyah == Some(audio.value.key))
      && (audio.Some? ==> audio.value.id in elements && elements[audio.value.id] == audio.value)
      && (forall id :: id in elements <==> 0 <= id < created)
      && (forall id :: id in elements ==> elements[id].id == id)
      && (forall id :: 0 <= id < created && !(audio.Some? && audio.value.id == id) ==> id in paused)
    }

    /** `h` is an element this player created. */
    ghost predicate Created(h: AudioHandle)
      reads this
    {
      h.id in elements && elements[h.id] == h
    }

    predicate Idle()
      reads this
    {
      !isPlaying && !isLoading && currentAyah == None
    }

    constructor ()
      ensures Valid() && Idle() && audio == None && created == 0 && elements == map[]
    {
      isPlaying := false;
      isLoading := false;
      currentAyah := None;
      audio := None;
      created := 0;
      paused := {};
      elements := map[];
    }

    /**
     * `play`: on the ayah that is current while an element is held, pauses
     * it and goes idle, keeping the element; otherwise pauses and drops the
     * held element, creates one for the ayah's file and shows it loading.
     */
    method Play(surahNumber: int, ayahNumber: int)
      requires Valid()
      modifies this
      ensures Valid()
      ensures old(currentAyah) == Some(AyahKey(surahNumber, ayahNumber)) && old(audio).Some? ==>
        && Idle() && audio == old(audio) && created == old(created) && elements == old(elements)
        && paused == old(paused) + {old(audio).value.id}
      ensures !(old(currentAyah) == Some(AyahKey(surahNumber, ayahNumber)) && old(audio).Some?) ==>
        && isLoading && !isPlaying && currentAyah == Some(AyahKey(surahNumber, ayahNumber))
        && audio == Some(AudioHandle(old(created), surahNumber, ayahNumber, AyahKey(surahNumber, ayahNumber)))
        && created == old(created) + 1
        && elements == old(elements)[old(created) := audio.value]
        && paused == old(paused) + (if old(audio).Some? then {old(audio).value.id} else {})
    {
      var key := AyahKey(surahNumber, ayahNumber);
      if currentAyah == Some(key) && audio.Some? {
        paused := paused + {audio.value.id};
        isPlaying, isLoading, currentAyah := false, false, None;
        return;
      }
      if audio.Some? {
        paused := paused + {audio.value.id};
        audio := None;
      }
      isPlaying, isLoading, currentAyah := false, true, Some(key);
      audio := Some(AudioHandle(created, surahNumber, ayahNumber, key));
      elements := elements[created := audio.value];
      created := created + 1;
    }

    /** `stop`: pauses and drops the held element and goes idle. */
    method Stop()
      requires Valid()
      modifies this
      ensures Valid() && Idle() && audio == None && created == old(created) && elements == old(elements)
      ensures paused == old(paused) + (if old(audio).Some? then {old(audio).value.id} else {})
    {
      if audio.Some? {
        paused := paused + {audio.value.id};
        audio := None;
      }
      isPlaying, isLoading, currentAyah := false, false, None;
    }

    /** The unmount cleanup: pauses and drops the held element; the state is left as it is and no longer read. */
    method Unmount()
      requires Valid()
      modifies this
      ensures audio == None && created == old(created) && elements == old(elements)
      ensures isPlaying == old(isPlaying) && isLoading == old(isLoading) && currentAyah == old(currentAyah)
      ensures forall id :: 0 <= id < created ==> id in paused
    {
      if audio.Some? {
        paused := paused + {audio.value.id};
        audio := None;
      }
    }

    /**
     * `loadeddata` on element `h`: shows `h`'s ayah playing. The handler
     * does not ask whether `h` is still the held element.
     */
    method OnLoadedData(h: AudioHandle)
      requires Valid() && Created(h)
      modifies this
      ensures Valid()
      ensures isPlaying && !isLoading && currentAyah == Some(h.key)
      ensures audio == old(audio) && created == old(created) && paused == old(paused) && elements == old(elements)
    {
      isPlaying, isLoading, currentAyah := true, false, Some(h.key);
    }

    /**
     * `ended` or `error` on element `h`, or its `play()` promise rejecting:
     * goes idle, whichever element `h` is.
     */
    method OnFinished(h: AudioHandle)
      requires Valid() && Created(h)
      modifies this
      ensures Valid() && Idle()
      ensures audio == old(audio) && created == old(created) && paused == old(paused) && elements == old(elements)
    {
      isPlaying, isLoading, currentAyah := false, false, None;
    }
  }

  /** Playing an ayah, letting it load and pressing it again pauses it and goes idle. */
  method PlayTwiceToggles(p: Player, s: int, a: int)
    requires p.Valid() && p.Idle()
    modifies p
    ensures p.Valid() && p.Idle()
    ensures p.audio.Some? && p.audio.value.id in p.paused
  {
    p.Play(s, a);
    var h := p.audio.value;
    p.OnLoadedData(h);
    p.Play(s, a);
  }

  /** Pressing a different ayah while one plays starts the new one and pauses the old. */
  method SwitchAyah(p: Player, s1: int, a1: int, s2: int, a2: int)
    requires p.Valid() && p.Idle()
    requires s1 != s2 || a1 != a2
    modifies p
    ensures p.Valid() && p.isLoading && p.currentAyah == Some(AyahKey(s2, a2))
    ensures p.audio.Some? && p.audio.value.Url() == AudioUrl(s2, a2)
    ensures forall id :: 0 <= id < p.created - 1 ==> id in p.paused
  {
    p.Play(s1, a1);
    var first := p.audio.value;
    p.OnLoadedData(first);
    if AyahKey(s1, a1) == AyahKey(s2, a2) {
      AyahKeyInjective(s1, a1, s2, a2);
    }
    p.Play(s2, a2);
  }

  /**
   * A late event of a replaced element overrides the newer one: the first
   * element's `play()` promise rejects once it is paused, and that sends the
   * player idle although the second ayah is loading.
   */
  method ReplacedElementEndsNewerLoad(p: Player, s1: int, a1: int, s2: int, a2: int)
    requires p.Valid() && p.Idle()
    requires s1 != s2 || a1 != a2
    modifies p
    ensures p.Valid() && p.Idle()
    ensures p.audio.Some? && p.audio.value.key == AyahKey(s2, a2) && p.audio.value.id == p.created - 1
  {
    p.Play(s1, a1);
    var first := p.audio.value;
    if AyahKey(s1, a1) == AyahKey(s2, a2) {
      AyahKeyInjective(s1, a1, s2, a2);
    }
    p.Play(s2, a2);
    p.OnFinished(first);
  }
}
