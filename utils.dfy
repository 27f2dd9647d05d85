/** The pure helpers of src/lib/utils.ts: socket-error wording, image-URL check,
    timer-bar colour and the seconds formatter. */
module Utils {
  import opened Protocol
  import PollServer

  // ---------------------------------------------------------------------------
  // Substrings, prefixes, suffixes

  predicate IsPrefix(p: string, s: string)
  {
    |p| <= |s| && s[..|p|] == p
  }

  predicate EndsWith(s: string, suffix: string)
  {
    |suffix| <= |s| && s[|s| - |suffix|..] == suffix
  }

  /** `s.includes(sub)`. */
  predicate Contains(s: string, sub: string)
    decreases |s|
  {
    IsPrefix(sub, s) || (s != [] && Contains(s[1..], sub))
  }

  predicate OccursAt(s: string, sub: string, i: int)
  {
    0 <= i <= |s| - |sub| && s[i..i + |sub|] == sub
  }

  /** `sub` occurs in `s` exactly when it starts at some position of `s`. */
  lemma {:induction false} ContainsAt(s: string, sub: string)
    ensures Contains(s, sub) <==> exists i :: OccursAt(s, sub, i)
    decreases |s|
  {
    if IsPrefix(sub, s) {
      assert OccursAt(s, sub, 0);
    }
    if s == [] {
      if exists i :: OccursAt(s, sub, i) {
        var i :| OccursAt(s, sub, i);
        assert i == 0 && IsPrefix(sub, s);
      }
    } else {
      ContainsAt(s[1..], sub);
      if Contains(s[1..], sub) {
        var i :| OccursAt(s[1..], sub, i);
        assert s[i + 1..i + 1 + |sub|] == s[1..][i..i + |sub|];
        assert OccursAt(s, sub, i + 1);
      }
      if exists i :: OccursAt(s, sub, i) {
        var i :| OccursAt(s, sub, i);
        if i > 0 {
          assert s[1..][i - 1..i - 1 + |sub|] == s[i..i + |sub|];
          assert OccursAt(s[1..], sub, i - 1);
        }
      }
    }
  }

  /** Every character of a substring occurs in the string. */
  lemma {:induction false} ContainsKeepsChars(s: string, sub: string, c: char)
    requires Contains(s, sub) && c in sub
    ensures c in s
    decreases |s|
  {
    if IsPrefix(sub, s) {
      assert c in s[..|sub|];
    } else {
      ContainsKeepsChars(s[1..], sub, c);
    }
  }

  // ---------------------------------------------------------------------------
  // handleSocketError (utils.ts:3-14)

  const TimeoutText := "Connection timeout. Check your internet connection."
  const RefusedText := "Cannot connect to server. Please try again."
  const AlreadyVotedText := "You've already voted on this poll."
  const GenericText := "Something went wrong. Please refresh the page."

  /** `message` is None when the error has no `message` property. */
  function HandleSocketError(message: Option<string>): (r: string)
    ensures r == TimeoutText <==> message.Some? && Contains(message.value, "timeout")
    ensures r == RefusedText <==>
      message.Some? && !Contains(message.value, "timeout") && Contains(message.value, "refused")
    ensures r == AlreadyVotedText <==>
      && message.Some? && !Contains(message.value, "timeout") && !Contains(message.value, "refused")
      && Contains(message.value, "already voted")
    ensures r == GenericText <==>
      message.None? ||
      (!Contains(message.value, "timeout") && !Contains(message.value, "refused") &&
       !Contains(message.value, "already voted"))
  {
    match message
    case None => GenericText
    case Some(m) =>
      if Contains(m, "timeout") then TimeoutText
      else if Contains(m, "refused") then RefusedText
      else if Contains(m, "already voted") then AlreadyVotedText
      else GenericText
  }

  /** A pattern with a character the text lacks does not occur in it. */
  lemma MissingCharRulesOut(m: string, pattern: string, c: char)
    requires c in pattern && c !in m
    ensures !Contains(m, pattern)
  {
    if Contains(m, pattern) {
      ContainsKeepsChars(m, pattern, c);
    }
  }

  /** The letters of the duplicate-vote message that decide its wording. */
  lemma AlreadyVotedLetters(m: string)
    requires m == PollServer.Message(PollServer.AlreadyVoted)
    ensures 'm' !in m && 'f' !in m
    ensures OccursAt(m, "already voted", 9)
  {
  }

  /** The server's duplicate-vote error gets its own wording. */
  lemma DuplicateVoteWording(m: string)
    requires m == PollServer.Message(PollServer.AlreadyVoted)
    ensures HandleSocketError(Some(m)) == AlreadyVotedText
  {
    AlreadyVotedLetters(m);
    ContainsAt(m, "already voted");
    assert "timeout"[2] == 'm' && "refused"[2] == 'f';
    MissingCharRulesOut(m, "timeout", 'm');
    MissingCharRulesOut(m, "refused", 'f');
  }

  /** The server's other three errors fall through to the generic text. */
  lemma OtherServerErrorsWording(e: PollServer.VoteError)
    requires e != PollServer.AlreadyVoted
    ensures HandleSocketError(Some(PollServer.Message(e))) == GenericText
  {
    var m := PollServer.Message(e);
    assert 'm' !in m && 'r' !in m;
    assert "timeout"[2] == 'm' && "refused"[0] == 'r' && "already voted"[2] == 'r';
    MissingCharRulesOut(m, "timeout", 'm');
    MissingCharRulesOut(m, "refused", 'r');
    MissingCharRulesOut(m, "already voted", 'r');
  }

  // ---------------------------------------------------------------------------
  // isValidImageUrl (utils.ts:16-39)

  const ValidExtensions: seq<string> := [".jpg", ".jpeg", ".png", ".gif", ".svg", ".avif", ".webp"]

  function LowerChar(c: char): char
  {
    if 'A' <= c <= 'Z' then (c as int + 32) as char else c
  }

  /** `toLowerCase`, on ASCII letters. */
  function ToLower(s: string): (r: string)
    ensures |r| == |s|
    ensures forall i :: 0 <= i < |s| ==> r[i] == LowerChar(s[i])
  {
    seq(|s|, i requires 0 <= i < |s| => LowerChar(s[i]))
  }

  lemma ToLowerIdempotent(s: string)
    ensures ToLower(ToLower(s)) == ToLower(s)
  {
  }

  /** `exts.some(ext => s.endsWith(ext))`. */
  predicate SomeSuffix(s: string, exts: seq<string>)
    decreases |exts|
  {
    exts != [] && (EndsWith(s, exts[0]) || SomeSuffix(s, exts[1..]))
  }

  lemma {:induction false} SomeSuffixSpec(s: string, exts: seq<string>)
    ensures SomeSuffix(s, exts) <==> exists k :: 0 <= k < |exts| && EndsWith(s, exts[k])
    decreases |exts|
  {
    if exts != [] {
      SomeSuffixSpec(s, exts[1..]);
      if exists k :: 0 <= k < |exts| && EndsWith(s, exts[k]) {
        var k :| 0 <= k < |exts| && EndsWith(s, exts[k]);
        if k > 0 { assert EndsWith(s, exts[1..][k - 1]); }
      }
    }
  }

  function IsValidImageUrl(url: string): (r: bool)
    ensures url == [] ==> !r
    ensures r <==> url != [] && SomeSuffix(ToLower(url), ValidExtensions)
  {
    url != [] && SomeSuffix(ToLower(url), ValidExtensions)
  }

  /** The answer depends only on the lower-cased text. */
  lemma IsValidImageUrlIgnoresCase(u: string, v: string)
    requires ToLower(u) == ToLower(v)
    ensures IsValidImageUrl(u) == IsValidImageUrl(v)
  {
    assert |u| == |ToLower(u)| == |v|;
  }

  /** A valid URL ends with a listed extension, up to case. */
  lemma ValidImageUrlEnding(url: string)
    requires IsValidImageUrl(url)
    ensures exists k :: 0 <= k < |ValidExtensions| && EndsWith(ToLower(url), ValidExtensions[k])
  {
    SomeSuffixSpec(ToLower(url), ValidExtensions);
  }

  // ---------------------------------------------------------------------------
  // getTimerColor (utils.ts:41-45)

  const Green := "bg-green-400"
  const Yellow := "bg-yellow-400"
  const Red := "bg-red-400"

  function GetTimerColor(percentage: real): (r: string)
    ensures r == Green <==> percentage > 66.0
    ensures r == Yellow <==> 33.0 < percentage <= 66.0
    ensures r == Red <==> percentage <= 33.0
  {
    if percentage > 66.0 then Green
    else if percentage > 33.0 then Yellow
    else Red
  }

  // ---------------------------------------------------------------------------
  // formatTime (utils.ts:47-52)

  predicate IsDigit(c: char)
  {
    '0' <= c <= '9'
  }

  predicate AllDigits(s: string)
  {
    forall i :: 0 <= i < |s| ==> IsDigit(s[i])
  }

  function DigitChar(d: nat): char
    requires d < 10
  {
    ('0' as int + d) as char
  }

  /** Decimal digits of a non-negative integer, without leading zeros. */
  function NatToString(n: nat): (r: string)
    ensures |r| >= 1 && AllDigits(r)
    ensures n < 10 <==> |r| == 1
    ensures n > 0 ==> r[0] != '0'
    decreases n
  {
    if n < 10 then [DigitChar(n)] else NatToString(n / 10) + [DigitChar(n % 10)]
  }

  /** Template-literal rendering of an integer: a minus sign exactly for a
      negative number, then the decimal digits of its magnitude. */
  function IntToString(i: int): (r: string)
    ensures |r| >= 1
    ensures i < 0 <==> r[0] == '-'
    ensures i >= 0 ==> AllDigits(r)
    ensures i < 0 ==> |r| >= 2 && AllDigits(r[1..])
  {
    if i < 0 then "-" + NatToString(-i) else NatToString(i)
  }

  /** `s.padStart(2, "0")`. */
  function PadStart2(s: string): (r: string)
    ensures |r| == if |s| >= 2 then |s| else 2
    ensures AllDigits(s) ==> AllDigits(r)
    decreases 2 - |s|
  {
    if |s| >= 2 then s else PadStart2("0" + s)
  }

  /** `formatTime`: under a minute the seconds and an "s"; from a minute on
      "m:ss". FormatTimeReadsBack gives the numbers the text stands for. */
  function FormatTime(seconds: int): (r: string)
    ensures |r| >= 2
    ensures seconds < 60 <==> r[|r| - 1] == 's'
    ensures seconds >= 60 <==> ':' in r
  {
    if seconds < 60 then IntToString(seconds) + "s"
    else NatToString(seconds / 60) + ":" + PadStart2(NatToString(seconds % 60))
  }

  /** Reads a string of decimal digits back as a number. */
  function ParseNat(s: string): nat
    requires AllDigits(s)
    decreases |s|
  {
    if s == [] then 0
    else ParseNat(s[..|s| - 1]) * 10 + (s[|s| - 1] as int - '0' as int)
  }

  lemma {:induction false} ParseNatToString(n: nat)
    ensures ParseNat(NatToString(n)) == n
    decreases n
  {
    if n >= 10 {
      var r := NatToString(n);
      assert r[..|r| - 1] == NatToString(n / 10);
      ParseNatToString(n / 10);
    }
  }

  lemma {:induction false} ParseNatLeadingZero(s: string)
    requires AllDigits(s)
    ensures AllDigits("0" + s) && ParseNat("0" + s) == ParseNat(s)
    decreases |s|
  {
    if s != [] {
      assert ("0" + s)[..|"0" + s| - 1] == "0" + s[..|s| - 1];
      ParseNatLeadingZero(s[..|s| - 1]);
    }
  }

  lemma {:induction false} ParsePadStart2(s: string)
    requires AllDigits(s)
    ensures AllDigits(PadStart2(s)) && ParseNat(PadStart2(s)) == ParseNat(s)
    decreases 2 - |s|
  {
    if |s| < 2 {
      ParseNatLeadingZero(s);
      ParsePadStart2("0" + s);
    }
  }

  /** Below a minute the text is the number followed by "s"; from a minute on it
      is "m:ss" where the two digits after the colon are the seconds past the
      minute and m * 60 + ss gives back the input. */
  lemma FormatTimeReadsBack(seconds: int)
    ensures var r := FormatTime(seconds);
      && 0 <= seconds < 60 ==>
        && r[|r| - 1] == 's' && AllDigits(r[..|r| - 1])
        && ParseNat(r[..|r| - 1]) == seconds
    ensures var r := FormatTime(seconds);
      seconds < 0 ==>
        && r[0] == '-' && r[|r| - 1] == 's' && |r| >= 3 && AllDigits(r[1..|r| - 1])
        && ParseNat(r[1..|r| - 1]) == -seconds
    ensures var r := FormatTime(seconds);
      seconds >= 60 ==>
        var i := |r| - 3;
        && 0 < i && r[i] == ':'
        && AllDigits(r[..i]) && AllDigits(r[i + 1..]) && |r[i + 1..]| == 2
        && ParseNat(r[i + 1..]) < 60
        && ParseNat(r[..i]) * 60 + ParseNat(r[i + 1..]) == seconds
        && r[0] != '0'
  {
    var r := FormatTime(seconds);
    if 0 <= seconds < 60 {
      assert r[..|r| - 1] == NatToString(seconds);
      ParseNatToString(seconds);
    } else if seconds < 0 {
      assert r[1..|r| - 1] == NatToString(-seconds);
      ParseNatToString(-seconds);
    } else {
      var m, ss := NatToString(seconds / 60), PadStart2(NatToString(seconds % 60));
      assert r == m + ":" + ss;
      assert r[..|r| - 3] == m;
      assert r[|r| - 2..] == ss;
      ParseNatToString(seconds / 60);
      ParseNatToString(seconds % 60);
      ParsePadStart2(NatToString(seconds % 60));
    }
  }
}
