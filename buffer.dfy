/**
 * The transcription store of perception_voice/buffer.py: a time-indexed list of
 * utterances with retention eviction, a discard-phrase filter and per-client read
 * markers.
 *
 * Timestamps are integers counting microseconds (the resolution of Python's
 * `datetime`); every operation that reads the clock takes the current time as the
 * parameter `now`.
 */
module Store {
  import opened Wrappers
  import opened Strings

  /** Clock ticks per second: timestamps are in microseconds. */
  const MicrosPerSecond: int := 1_000_000

  // ---------------------------------------------------------------------------
  // normalize_phrase
  // ---------------------------------------------------------------------------

  /** The characters kept by the pattern `[^a-z0-9]` substitution. */
  predicate IsAsciiAlnum(c: char) {
    'a' <= c <= 'z' || '0' <= c <= '9'
  }

  predicate AllAsciiAlnum(s: string) {
    forall i :: 0 <= i < |s| ==> IsAsciiAlnum(s[i])
  }

  /**
   * `c.lower()` as far as normalisation can see it: it agrees with Python's
   * `str.lower` on every character whose lower-case form contains an ASCII letter or
   * digit (A-Z, U+0130 and the Kelvin sign U+212A); any other character is kept as
   * it is, and neither it nor its real lower-case form survives the filter.
   */
  function LowerChar(c: char): (r: string)
    ensures 'A' <= c <= 'Z' ==> r == [(c as int + 32) as char] && IsAsciiAlnum(r[0])
    ensures c == '\U{212A}' ==> r == "k"
    ensures c == '\U{0130}' ==> r == "i\U{0307}"
    ensures IsAsciiAlnum(c) ==> r == [c]
  {
    if 'A' <= c <= 'Z' then [(c as int + 32) as char]
    else if c == '\U{212A}' then "k"
    else if c == '\U{0130}' then "i\U{0307}"
    else [c]
  }

  /** `text.lower()`, character by character. */
  function Lower(text: string): (r: string)
    ensures |r| >= |text|
  {
    if text == [] then [] else LowerChar(text[0]) + Lower(text[1..])
  }

  /** `re.sub(r'[^a-z0-9]', '', s)`: keeps the ASCII lower-case letters and digits, in order. */
  function KeepAsciiAlnum(s: string): (r: string)
    ensures |r| <= |s|
    ensures AllAsciiAlnum(r)
    ensures |s| == 1 ==> r == (if IsAsciiAlnum(s[0]) then s else [])
  {
    if s == [] then []
    else if IsAsciiAlnum(s[0]) then [s[0]] + KeepAsciiAlnum(s[1..])
    else KeepAsciiAlnum(s[1..])
  }

  /** normalize_phrase: lower-case, strip, then keep only `a-z` and `0-9`. */
  function NormalizePhrase(text: string): (r: string)
    ensures AllAsciiAlnum(r)
  {
    KeepAsciiAlnum(Strip(Lower(text)))
  }

  /** The filter keeps exactly the `a-z` and `0-9` characters of its input. */
  lemma {:induction false} KeepMembers(s: string)
    ensures forall c :: c in KeepAsciiAlnum(s) <==> c in s && IsAsciiAlnum(c)
  {
    if s != [] {
      KeepMembers(s[1..]);
      assert s == [s[0]] + s[1..];
    }
  }

  /** The filter works piecewise: filtering a concatenation concatenates the filtered parts, so order is kept. */
  lemma {:induction false} KeepAppend(a: string, b: string)
    ensures KeepAsciiAlnum(a + b) == KeepAsciiAlnum(a) + KeepAsciiAlnum(b)
  {
    if a == [] {
      assert a + b == b;
    } else {
      var ab := a + b;
      assert ab[0] == a[0] && ab[1..] == a[1..] + b;
      var head := if IsAsciiAlnum(a[0]) then [a[0]] else [];
      assert KeepAsciiAlnum(ab) == head + KeepAsciiAlnum(a[1..] + b);
      assert KeepAsciiAlnum(a) == head + KeepAsciiAlnum(a[1..]);
      KeepAppend(a[1..], b);
    }
  }

  lemma {:induction false} LowerFixesAlnum(s: string)
    requires AllAsciiAlnum(s)
    ensures Lower(s) == s
  {
    if s != [] {
      LowerFixesAlnum(s[1..]);
      assert s == [s[0]] + s[1..];
    }
  }

  lemma {:induction false} KeepFixesAlnum(s: string)
    requires AllAsciiAlnum(s)
    ensures KeepAsciiAlnum(s) == s
  {
    if s != [] {
      KeepFixesAlnum(s[1..]);
      assert s == [s[0]] + s[1..];
    }
  }

  /** A phrase made only of `a-z` and `0-9` is its own normal form. */
  lemma NormalizeFixesAlnum(s: string)
    requires AllAsciiAlnum(s)
    ensures NormalizePhrase(s) == s
  {
    LowerFixesAlnum(s);
    assert NoSpace(s) by {
      forall i | 0 <= i < |s| ensures !IsSpace(s[i]) { assert IsAsciiAlnum(s[i]); }
    }
    StripNoSpace(s);
    KeepFixesAlnum(s);
  }

  /** Normalising an already normalised phrase changes nothing. */
  lemma NormalizeIdempotent(text: string)
    ensures NormalizePhrase(NormalizePhrase(text)) == NormalizePhrase(text)
  {
    NormalizeFixesAlnum(NormalizePhrase(text));
  }

  /** The same character, or an ASCII letter in upper case and in lower case. */
  predicate AsciiCaseVariant(a: char, b: char) {
    a == b || ('A' <= a <= 'Z' && b == (a as int + 32) as char) || ('A' <= b <= 'Z' && a == (b as int + 32) as char)
  }

  lemma {:induction false} LowerIgnoresAsciiCase(s: string, t: string)
    requires |s| == |t| && forall i :: 0 <= i < |s| ==> AsciiCaseVariant(s[i], t[i])
    ensures Lower(s) == Lower(t)
  {
    if s != [] {
      LowerIgnoresAsciiCase(s[1..], t[1..]);
      assert AsciiCaseVariant(s[0], t[0]);
    }
  }

  /** Texts that differ only in the case of ASCII letters have the same normal form. */
  lemma NormalizeIgnoresAsciiCase(s: string, t: string)
    requires |s| == |t| && forall i :: 0 <= i < |s| ==> AsciiCaseVariant(s[i], t[i])
    ensures NormalizePhrase(s) == NormalizePhrase(t)
  {
    LowerIgnoresAsciiCase(s, t);
  }

  // ---------------------------------------------------------------------------
  // Utterances and the pure view of the store's operations
  // ---------------------------------------------------------------------------

  /** A transcribed utterance and the time it was stored. */
  datatype Utterance = Utterance(timestamp: int, text: string)

  /** Timestamps never decrease along the list. */
  predicate Sorted(us: seq<Utterance>) {
    forall i, j :: 0 <= i < j < |us| ==> us[i].timestamp <= us[j].timestamp
  }

  /** The entries strictly newer than `marker`, in list order. */
  function Since(us: seq<Utterance>, marker: int): (r: seq<Utterance>)
    ensures |r| <= |us|
  {
    if us == [] then []
    else Since(us[..|us| - 1], marker) + (if us[|us| - 1].timestamp > marker then [us[|us| - 1]] else [])
  }

  /** Since selects exactly the entries newer than the marker. */
  lemma {:induction false} SinceMembers(us: seq<Utterance>, marker: int)
    ensures forall u :: u in Since(us, marker) <==> u in us && u.timestamp > marker
  {
    if us != [] {
      var init := us[..|us| - 1];
      SinceMembers(init, marker);
      assert us == init + [us[|us| - 1]];
    }
  }

  /** The `latest_timestamp` accumulator: the largest of `init` and every timestamp in `us`. */
  function Latest(us: seq<Utterance>, init: int): int {
    if us == [] then init
    else
      var m := Latest(us[..|us| - 1], init);
      if us[|us| - 1].timestamp > m then us[|us| - 1].timestamp else m
  }

  /** Latest is an upper bound of `init` and of the timestamps, and is one of them. */
  lemma {:induction false} LatestBounds(us: seq<Utterance>, init: int)
    ensures Latest(us, init) >= init
    ensures forall u :: u in us ==> u.timestamp <= Latest(us, init)
    ensures Latest(us, init) == init || exists u :: u in us && u.timestamp == Latest(us, init)
  {
    if us != [] {
      var init' := us[..|us| - 1];
      LatestBounds(init', init);
      assert us == init' + [us[|us| - 1]];
    }
  }

  /** The JSONL lines of the given entries. */
  function Lines(toJsonl: Utterance -> string, us: seq<Utterance>): (r: seq<string>)
    ensures |r| == |us|
    ensures forall i :: 0 <= i < |us| ==> r[i] == toJsonl(us[i])
  {
    seq(|us|, i requires 0 <= i < |us| => toJsonl(us[i]))
  }

  /** The text get_since_marker returns for `uid`. */
  function GetText(us: seq<Utterance>, markers: map<string, int>, uid: string,
                   toJsonl: Utterance -> string): (r: string)
    ensures uid !in markers ==> r == ""
    ensures uid in markers && Since(us, markers[uid]) == [] ==> r == ""
    ensures uid in markers && |Since(us, markers[uid])| == 1 ==> r == toJsonl(Since(us, markers[uid])[0])
  {
    if uid !in markers then "" else Join(Lines(toJsonl, Since(us, markers[uid])), "\n")
  }

  /** The marker table after get_since_marker for `uid`. */
  function MarkersAfterGet(us: seq<Utterance>, markers: map<string, int>, uid: string,
                           now: int): (r: map<string, int>)
    ensures r.Keys == markers.Keys + {uid}
    ensures forall v :: v in markers && v != uid ==> r[v] == markers[v]
    ensures uid !in markers ==> r[uid] == now
    ensures uid in markers && Since(us, markers[uid]) == [] ==> r[uid] == markers[uid]
  {
    if uid !in markers then markers[uid := now]
    else
      var sel := Since(us, markers[uid]);
      if sel == [] then markers else markers[uid := Latest(sel, markers[uid])]
  }

  /** An entry is retained when its age is at most `limit` (the boundary is inclusive). */
  predicate Retained(u: Utterance, now: int, limit: int) {
    now - u.timestamp <= limit
  }

  /** The retention window in clock ticks. */
  function RetentionLimit(retentionMinutes: int): int {
    retentionMinutes * 60 * MicrosPerSecond
  }

  /** `keep_from`: the index of the first retained entry, or the length if there is none. */
  function KeepFrom(us: seq<Utterance>, now: int, limit: int): (k: nat)
    ensures k <= |us|
    ensures forall i :: 0 <= i < k ==> !Retained(us[i], now, limit)
    ensures k < |us| ==> Retained(us[k], now, limit)
  {
    if us == [] || Retained(us[0], now, limit) then 0 else 1 + KeepFrom(us[1..], now, limit)
  }

  /** The list after _cleanup_old_entries at time `now`. */
  function Evict(us: seq<Utterance>, now: int, retentionMinutes: int): (r: seq<Utterance>)
    ensures |r| <= |us| && r == us[|us| - |r|..]
    ensures r != [] ==> Retained(r[0], now, RetentionLimit(retentionMinutes))
    ensures forall i :: 0 <= i < |us| - |r| ==> !Retained(us[i], now, RetentionLimit(retentionMinutes))
  {
    us[KeepFrom(us, now, RetentionLimit(retentionMinutes))..]
  }

  // ---------------------------------------------------------------------------
  // Properties of the pure view
  // ---------------------------------------------------------------------------

  /** Splitting off the last element of the list splits Since accordingly. */
  lemma SinceSnoc(us: seq<Utterance>, i: nat, marker: int)
    requires i < |us|
    ensures Since(us[..i + 1], marker)
         == Since(us[..i], marker) + (if us[i].timestamp > marker then [us[i]] else [])
  {
    assert us[..i + 1][..i] == us[..i];
  }

  lemma LatestSnoc(us: seq<Utterance>, u: Utterance, init: int)
    ensures Latest(us + [u], init) == if u.timestamp > Latest(us, init) then u.timestamp else Latest(us, init)
  {
    assert (us + [u])[..|us|] == us;
  }

  /**
   * On a list in timestamp order, the entries newer than a marker are a suffix
   * of the list: everything before it is at or before the marker.
   */
  lemma {:induction false} SinceSortedIsSuffix(us: seq<Utterance>, marker: int)
    requires Sorted(us)
    ensures Since(us, marker) == us[|us| - |Since(us, marker)|..]
  {
    if us != [] {
      var init := us[..|us| - 1];
      var last := us[|us| - 1];
      assert Sorted(init);
      SinceSortedIsSuffix(init, marker);
      var s := Since(init, marker);
      if last.timestamp > marker {
        assert init[|init| - |s|..] + [last] == us[|init| - |s|..];
      } else {
        SortedLastOldNoneNewer(us, marker);
      }
    }
  }

  /** On a list in timestamp order whose last entry is at or before the marker, nothing is newer. */
  lemma SortedLastOldNoneNewer(us: seq<Utterance>, marker: int)
    requires Sorted(us) && us != [] && us[|us| - 1].timestamp <= marker
    ensures Since(us, marker) == []
  {
    forall u | u in us ensures u.timestamp <= marker {
      var j :| 0 <= j < |us| && us[j] == u;
      assert us[j].timestamp <= us[|us| - 1].timestamp;
    }
    SinceNoneNewer(us, marker);
  }

  /** On a list in timestamp order, every entry before that suffix is at or before the marker. */
  lemma {:induction false} SinceSortedSkipsOnlyOld(us: seq<Utterance>, marker: int)
    requires Sorted(us)
    ensures forall i :: 0 <= i < |us| - |Since(us, marker)| ==> us[i].timestamp <= marker
  {
    if us != [] {
      var init := us[..|us| - 1];
      var last := us[|us| - 1];
      assert Sorted(init);
      SinceSortedSkipsOnlyOld(init, marker);
      if last.timestamp > marker {
        forall i | 0 <= i < |us| - |Since(us, marker)| ensures us[i].timestamp <= marker {
          assert us[i] == init[i];
        }
      } else {
        forall i | 0 <= i < |us| ensures us[i].timestamp <= marker {
          assert us[i].timestamp <= last.timestamp;
        }
      }
    }
  }

  /** Nothing is newer than a marker at or after every timestamp. */
  lemma {:induction false} SinceNoneNewer(us: seq<Utterance>, marker: int)
    requires forall u :: u in us ==> u.timestamp <= marker
    ensures Since(us, marker) == []
  {
    if us != [] {
      assert forall u :: u in us[..|us| - 1] ==> u in us;
      SinceNoneNewer(us[..|us| - 1], marker);
      assert us[|us| - 1] in us;
    }
  }

  /** The marker of `uid` never moves backwards on a get, and no other marker moves. */
  lemma GetNeverDecreasesMarker(us: seq<Utterance>, markers: map<string, int>, uid: string, now: int)
    requires uid in markers
    ensures uid in MarkersAfterGet(us, markers, uid, now)
    ensures MarkersAfterGet(us, markers, uid, now)[uid] >= markers[uid]
    ensures forall v :: v != uid ==> (v in markers <==> v in MarkersAfterGet(us, markers, uid, now))
    ensures forall v :: v != uid && v in markers ==> MarkersAfterGet(us, markers, uid, now)[v] == markers[v]
  {
    LatestBounds(Since(us, markers[uid]), markers[uid]);
  }

  /**
   * A get that returns entries moves the marker to the newest returned timestamp
   * (not to "now"); a get that returns none leaves it where it was.
   */
  lemma GetAdvancesToNewestReturned(us: seq<Utterance>, markers: map<string, int>, uid: string, now: int)
    requires uid in markers
    ensures var sel := Since(us, markers[uid]);
            var m := MarkersAfterGet(us, markers, uid, now)[uid];
            && (sel == [] ==> m == markers[uid])
            && (sel != [] ==> (exists u :: u in sel && u.timestamp == m)
                              && forall u :: u in sel ==> u.timestamp <= m)
  {
    var sel := Since(us, markers[uid]);
    LatestBounds(sel, markers[uid]);
    SinceMembers(us, markers[uid]);
    if sel != [] {
      assert sel[0] in sel;
    }
  }

  /** An immediate second get for a known client returns nothing. */
  lemma RepeatGetIsEmpty(us: seq<Utterance>, markers: map<string, int>, uid: string,
                                            now: int, toJsonl: Utterance -> string)
    requires uid in markers
    ensures GetText(us, MarkersAfterGet(us, markers, uid, now), uid, toJsonl) == ""
  {
    var sel := Since(us, markers[uid]);
    SinceMembers(us, markers[uid]);
    if sel != [] {
      var latest := Latest(sel, markers[uid]);
      LatestBounds(sel, markers[uid]);
      forall u | u in us ensures u.timestamp <= latest {
        if u.timestamp > markers[uid] {
          assert u in sel;
        }
      }
      SinceNoneNewer(us, latest);
    }
  }

  /** A get for a new client returns "", and so does the next get if no entry lies after `now`. */
  lemma FirstGetIsEmpty(us: seq<Utterance>, markers: map<string, int>, uid: string,
                        now: int, toJsonl: Utterance -> string)
    requires uid !in markers
    requires forall u :: u in us ==> u.timestamp <= now
    ensures GetText(us, markers, uid, toJsonl) == ""
    ensures GetText(us, MarkersAfterGet(us, markers, uid, now), uid, toJsonl) == ""
  {
    SinceNoneNewer(us, now);
  }

  /**
   * Eviction keeps a suffix: every dropped entry is older than the window, the
   * first kept entry is inside it, and an entry exactly at the boundary is kept.
   */
  lemma EvictKeepsSuffix(us: seq<Utterance>, now: int, retentionMinutes: int)
    ensures var r := Evict(us, now, retentionMinutes);
            var limit := RetentionLimit(retentionMinutes);
            && |r| <= |us| && r == us[|us| - |r|..]
            && (forall i :: 0 <= i < |us| - |r| ==> now - us[i].timestamp > limit)
            && (r != [] ==> now - r[0].timestamp <= limit)
  {
  }

  /** On a list in timestamp order, eviction keeps exactly the entries inside the window. */
  lemma EvictSortedKeepsExactlyRetained(us: seq<Utterance>, now: int, retentionMinutes: int)
    requires Sorted(us)
    ensures forall u :: u in Evict(us, now, retentionMinutes) <==>
                        u in us && Retained(u, now, RetentionLimit(retentionMinutes))
  {
    var limit := RetentionLimit(retentionMinutes);
    var k := KeepFrom(us, now, limit);
    forall u | u in us && Retained(u, now, limit) ensures u in us[k..] {
      var i :| 0 <= i < |us| && us[i] == u;
      assert us[k..][i - k] == u;
    }
    forall u | u in us[k..] ensures Retained(u, now, limit) {
      var i :| 0 <= i < |us[k..]| && us[k..][i] == u;
      assert us[k + i].timestamp >= us[k].timestamp;
    }
  }

  /** An entry stamped "now" survives the eviction that follows its insertion. */
  lemma EvictKeepsNewest(us: seq<Utterance>, u: Utterance, now: int, retentionMinutes: int)
    requires u.timestamp == now && retentionMinutes >= 0
    ensures var r := Evict(us + [u], now, retentionMinutes);
            r != [] && r[|r| - 1] == u
  {
    var k := KeepFrom(us + [u], now, RetentionLimit(retentionMinutes));
    assert (us + [u])[|us|] == u;
  }

  /** Appending an entry stamped "now" after older ones and evicting keeps the list sorted. */
  lemma AddAtNowKeepsSorted(us: seq<Utterance>, u: Utterance, now: int, retentionMinutes: int)
    requires Sorted(us) && u.timestamp == now
    requires forall v :: v in us ==> v.timestamp <= now
    ensures Sorted(Evict(us + [u], now, retentionMinutes))
  {
    var s := us + [u];
    assert Sorted(s) by {
      forall i, j | 0 <= i < j < |s| ensures s[i].timestamp <= s[j].timestamp {
        if j == |us| { assert s[i] in us; }
      }
    }
  }

  /**
   * No stored timestamp and no marker lies after `now`: what the store looks like
   * when every entry was stamped by the clock and the clock never went back.
   */
  predicate NotAhead(us: seq<Utterance>, markers: map<string, int>, now: int) {
    && (forall i :: 0 <= i < |us| ==> us[i].timestamp <= now)
    && (forall v :: v in markers ==> markers[v] <= now)
  }

  /**
   * set_marker at a time no earlier than the last keeps the store not ahead of the
   * clock and lowers no marker. (Without that, set_marker can move a marker back.)
   */
  lemma SetMarkerKeepsOrder(us: seq<Utterance>, markers: map<string, int>, uid: string, now: int, later: int)
    requires NotAhead(us, markers, now) && now <= later
    ensures NotAhead(us, markers[uid := later], later)
    ensures forall v :: v in markers ==> markers[v] <= markers[uid := later][v]
  {
  }

  /** get_since_marker at a time no earlier than the last keeps the store not ahead of the clock. */
  lemma GetKeepsNotAhead(us: seq<Utterance>, markers: map<string, int>, uid: string, now: int, later: int)
    requires NotAhead(us, markers, now) && now <= later
    ensures NotAhead(us, MarkersAfterGet(us, markers, uid, later), later)
  {
    if uid in markers {
      var sel := Since(us, markers[uid]);
      LatestBounds(sel, markers[uid]);
      SinceMembers(us, markers[uid]);
      forall u | u in sel ensures u.timestamp <= now {
        var i :| 0 <= i < |us| && us[i] == u;
      }
    }
  }

  /** add stamped by the clock, at a time no earlier than the last, keeps the store not ahead of the clock. */
  lemma AddKeepsNotAhead(us: seq<Utterance>, markers: map<string, int>, text: string,
                         now: int, later: int, retentionMinutes: int)
    requires NotAhead(us, markers, now) && now <= later
    ensures NotAhead(us, markers, later)
    ensures NotAhead(Evict(us + [Utterance(later, text)], later, retentionMinutes), markers, later)
  {
    var s := us + [Utterance(later, text)];
    var k := KeepFrom(s, later, RetentionLimit(retentionMinutes));
    forall i | 0 <= i < |s[k..]| ensures s[k..][i].timestamp <= later {
      assert s[k..][i] == s[k + i];
    }
  }

  /** The images of the elements of `xs` under `f`. */
  function Image<A(==), B>(f: A -> B, xs: seq<A>): set<B> {
    set x | x in xs :: f(x)
  }

  lemma ImageSnoc<A, B>(f: A -> B, xs: seq<A>, i: nat)
    requires i < |xs|
    ensures Image(f, xs[..i + 1]) == Image(f, xs[..i]) + {f(xs[i])}
  {
    var a, b := xs[..i], xs[..i + 1];
    assert b == a + [xs[i]];
    forall y | y in Image(f, b) ensures y in Image(f, a) + {f(xs[i])} {
      var x :| x in b && y == f(x);
      if x != xs[i] {
        assert x in a;
      }
    }
  }

  /** The discard set built from the configured phrases. */
  function NormalizedSet(phrases: seq<string>): set<string> {
    Image(NormalizePhrase, phrases)
  }

  lemma LinesSnoc(toJsonl: Utterance -> string, us: seq<Utterance>, u: Utterance)
    ensures Lines(toJsonl, us + [u]) == Lines(toJsonl, us) + [toJsonl(u)]
  {
  }

  // ---------------------------------------------------------------------------
  // TranscriptionBuffer
  // ---------------------------------------------------------------------------

  /** The store: the utterance list and the per-client read markers. */
  class TranscriptionBuffer {
    const retentionMinutes: int
    /** The discard phrases, normalised once at construction. */
    const discardPhrases: set<string>
    /** Utterance.to_jsonl, left uninterpreted. */
    const toJsonl: Utterance -> string
    var utterances: seq<Utterance>
    var readMarkers: map<string, int>

    /** `__init__`; a `None` phrase list is the empty list. */
    constructor (retentionMinutes: int, discardPhrases: seq<string>, toJsonl: Utterance -> string)
      ensures this.retentionMinutes == retentionMinutes && this.toJsonl == toJsonl
      ensures this.discardPhrases == NormalizedSet(discardPhrases)
      ensures utterances == [] && readMarkers == map[]
    {
      var normalized: set<string> := {};
      for i := 0 to |discardPhrases|
        invariant normalized == NormalizedSet(discardPhrases[..i])
      {
        ImageSnoc(NormalizePhrase, discardPhrases, i);
        normalized := normalized + {NormalizePhrase(discardPhrases[i])};
      }
      assert discardPhrases[..|discardPhrases|] == discardPhrases;
      this.retentionMinutes := retentionMinutes;
      this.discardPhrases := normalized;
      this.toJsonl := toJsonl;
      utterances := [];
      readMarkers := map[];
    }

    /** _should_discard: the emptiness test is only a shortcut for the membership test. */
    function ShouldDiscard(text: string): (r: bool)
      ensures r <==> NormalizePhrase(text) in discardPhrases
      ensures discardPhrases == {} ==> !r
    {
      if discardPhrases == {} then false else NormalizePhrase(text) in discardPhrases
    }

    /**
     * add: rejects empty, whitespace-only and discarded text without any change;
     * otherwise appends the stripped text, stamped `timestamp` or else `now`, and
     * evicts old entries. Markers are never touched.
     */
    method Add(text: string, timestamp: Option<int>, now: int) returns (added: bool)
      modifies this
      ensures added <==> Strip(text) != "" && NormalizePhrase(Strip(text)) !in discardPhrases
      ensures readMarkers == old(readMarkers)
      ensures !added ==> utterances == old(utterances)
      ensures added ==> utterances == Evict(old(utterances) + [Utterance(timestamp.GetOr(now), Strip(text))],
                                            now, retentionMinutes)
    {
      if text == "" || Strip(text) == "" {
        return false;
      }
      var stripped := Strip(text);
      if ShouldDiscard(stripped) {
        return false;
      }
      var utterance := Utterance(if timestamp.Some? then timestamp.value else now, stripped);
      utterances := utterances + [utterance];
      CleanupOldEntries(now);
      added := true;
    }

    /** set_marker: the client's marker becomes `now`; nothing else changes. */
    method SetMarker(uid: string, now: int)
      modifies this
      ensures readMarkers == old(readMarkers)[uid := now]
      ensures utterances == old(utterances)
    {
      readMarkers := readMarkers[uid := now];
    }

    /**
     * get_since_marker: for an unknown client, creates the marker at `now` and
     * returns ""; otherwise returns the JSONL lines of the entries newer than the
     * marker and advances the marker to the newest of them. The list is unchanged.
     */
    method GetSinceMarker(uid: string, now: int) returns (text: string)
      modifies this
      ensures text == GetText(old(utterances), old(readMarkers), uid, toJsonl)
      ensures readMarkers == MarkersAfterGet(old(utterances), old(readMarkers), uid, now)
      ensures utterances == old(utterances)
    {
      if uid !in readMarkers {
        readMarkers := readMarkers[uid := now];
        return "";
      }
      var marker := readMarkers[uid];
      var us := utterances;
      var resultLines: seq<string> := [];
      var latest := marker;
      for i := 0 to |us|
        invariant resultLines == Lines(toJsonl, Since(us[..i], marker))
        invariant latest == Latest(Since(us[..i], marker), marker)
        invariant readMarkers == old(readMarkers) && utterances == us
      {
        SinceSnoc(us, i, marker);
        var utterance := us[i];
        if utterance.timestamp > marker {
          assert Since(us[..i + 1], marker) == Since(us[..i], marker) + [utterance];
          LatestSnoc(Since(us[..i], marker), utterance, marker);
          LinesSnoc(toJsonl, Since(us[..i], marker), utterance);
          resultLines := resultLines + [toJsonl(utterance)];
          if utterance.timestamp > latest {
            latest := utterance.timestamp;
          }
        } else {
          assert Since(us[..i + 1], marker) == Since(us[..i], marker);
        }
      }
      assert us[..|us|] == us;
      assert |resultLines| == |Since(us, marker)|;
      if resultLines != [] {
        readMarkers := readMarkers[uid := latest];
      }
      text := Join(resultLines, "\n");
    }

    /** _cleanup_old_entries: drops the entries before the first one inside the window. */
    method CleanupOldEntries(now: int)
      modifies this
      ensures utterances == Evict(old(utterances), now, retentionMinutes)
      ensures readMarkers == old(readMarkers)
    {
      if utterances == [] {
        return;
      }
      var cutoff := RetentionLimit(retentionMinutes);
      var keepFrom := |utterances|;
      var i := 0;
      while i < |utterances|
        invariant 0 <= i <= |utterances|
        invariant keepFrom == |utterances|
        invariant forall j :: 0 <= j < i ==> !Retained(utterances[j], now, cutoff)
      {
        if now - utterances[i].timestamp <= cutoff {
          keepFrom := i;
          break;
        }
        i := i + 1;
      }
      assert keepFrom == KeepFrom(utterances, now, cutoff);
      if keepFrom > 0 {
        utterances := utterances[keepFrom..];
      }
    }
  }
}
