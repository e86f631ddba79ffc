/** Two ways of cutting a text to a byte limit without splitting a UTF-8 sequence. */
module Utf8Truncation {
  import opened Text

  predicate Tail(c: char) {
    '\U{80}' <= c <= '\U{BF}'
  }

  /** Length of the well-formed UTF-8 sequence that starts `s`, or 0 (section 4 of RFC 3629). */
  function RuneLen(s: string): (n: nat)
    ensures n <= |s| && n <= 4
  {
    if s == "" then 0
    else if s[0] < '\U{80}' then 1
    else if |s| >= 2 && '\U{C2}' <= s[0] <= '\U{DF}' && Tail(s[1]) then 2
    else if |s| >= 3 && Tail(s[1]) && Tail(s[2])
            && (|| (s[0] == '\U{E0}' && s[1] >= '\U{A0}') || '\U{E1}' <= s[0] <= '\U{EC}'
                || (s[0] == '\U{ED}' && s[1] <= '\U{9F}') || '\U{EE}' <= s[0] <= '\U{EF}') then 3
    else if |s| >= 4 && Tail(s[1]) && Tail(s[2]) && Tail(s[3])
            && (|| (s[0] == '\U{F0}' && s[1] >= '\U{90}') || '\U{F1}' <= s[0] <= '\U{F3}'
                || (s[0] == '\U{F4}' && s[1] <= '\U{8F}')) then 4
    else 0
  }

  /** Go's `utf8.ValidString`. */
  predicate Valid(s: string)
    decreases |s|
  {
    s == "" || (RuneLen(s) > 0 && Valid(s[RuneLen(s)..]))
  }

  /** `r` is the longest valid prefix of `s` of at most `limit` bytes. */
  ghost predicate LongestValidPrefix(r: string, s: string, limit: nat) {
    && r <= s && |r| <= limit && Valid(r)
    && forall k | |r| < k <= limit && k <= |s| :: !Valid(s[..k])
  }

  // ---------- the two loops ----------

  /** Drops trailing bytes until the rest is valid. */
  method TruncateBackward(input: string, maxBytes: int) returns (value: string)
    ensures maxBytes <= 0 || |input| <= maxBytes ==> value == input
    ensures 0 < maxBytes < |input| ==> LongestValidPrefix(value, input, maxBytes)
  {
    value := input;
    if maxBytes <= 0 || |value| <= maxBytes {
      return;
    }
    value := value[..maxBytes];
    while |value| > 0 && !Valid(value)
      invariant value <= input && |value| <= maxBytes
      invariant forall k | |value| < k <= maxBytes :: !Valid(input[..k])
      decreases |value|
    {
      assert value == input[..|value|];
      value := value[..|value| - 1];
    }
  }

  /** What the forward loop still appends when `room` bytes are left. Bytes that decode to no rune
      are written as U+FFFD, three bytes long. */
  function Forward(s: string, room: nat): string
    decreases |s|
  {
    if s == "" then ""
    else if RuneLen(s) == 0 then
      if room < 3 then "" else "\U{EF}\U{BF}\U{BD}" + Forward(s[1..], room - 3)
    else if RuneLen(s) > room then ""
    else s[..RuneLen(s)] + Forward(s[RuneLen(s)..], room - RuneLen(s))
  }

  /** The rune a loop over a string sees at `i`, as the bytes Go writes for it, and where the next one starts. */
  function RuneAt(s: string, i: nat): (r: (string, nat))
    requires i < |s|
    ensures i < r.1 <= |s|
  {
    var w := RuneLen(s[i..]);
    if w == 0 then ("\U{EF}\U{BF}\U{BD}", i + 1) else (s[i..i + w], i + w)
  }

  lemma {:induction false} ForwardAt(s: string, i: nat, room: nat)
    requires i <= |s|
    ensures i == |s| ==> Forward(s[i..], room) == ""
    ensures i < |s| ==>
              var (r, next) := RuneAt(s, i);
              Forward(s[i..], room) == if |r| > room then "" else r + Forward(s[next..], room - |r|)
  {
    hide RuneLen;
    var rest, w := s[i..], RuneLen(s[i..]);
    assert rest[..w] == s[i..i + w] && rest[w..] == s[i + w..];
    if i < |s| { assert rest[1..] == s[i + 1..]; }
  }

  /** Appends whole runes while they fit. */
  method TruncateForward(message: string, maxBytes: nat) returns (b: string)
    ensures b == if |message| <= maxBytes then message else Forward(message, maxBytes)
  {
    hide RuneAt, Forward;
    if |message| <= maxBytes {
      return message;
    }
    b := "";
    var i := 0;
    assert message[0..] == message;
    while i < |message|
      invariant 0 <= i <= |message| && |b| <= maxBytes
      invariant Forward(message, maxBytes) == b + Forward(message[i..], maxBytes - |b|)
    {
      ForwardAt(message, i, maxBytes - |b|);
      var (r, next) := RuneAt(message, i);
      if |b| + |r| > maxBytes {
        return b;
      }
      Assoc(b, r, Forward(message[next..], maxBytes - |b| - |r|));
      b := b + r;
      i := next;
    }
    ForwardAt(message, i, maxBytes - |b|);
  }

  // ---------- why they agree ----------

  /** A well-formed sequence is recognised from its own bytes. */
  lemma {:induction false} RuneLenOfPrefix(s: string, k: nat)
    requires k <= |s|
    ensures RuneLen(s[..k]) > 0 ==> RuneLen(s) == RuneLen(s[..k])
    ensures RuneLen(s) <= k ==> RuneLen(s[..k]) == RuneLen(s)
  {
  }

  /** A prefix is valid exactly when its first sequence is whole and the rest is valid. */
  lemma {:induction false} ValidPrefixSplits(s: string, k: nat)
    requires 0 < k <= |s|
    ensures Valid(s[..k]) <==> 0 < RuneLen(s) <= k && Valid(s[RuneLen(s)..][..k - RuneLen(s)])
  {
    RuneLenOfPrefix(s, k);
    hide RuneLen;
    var n, p := RuneLen(s), s[..k];
    if 0 < n <= k {
      assert p[n..] == s[n..][..k - n];
    }
  }

  lemma {:induction false} Extend(s: string, t: string, room: nat)
    requires 0 < RuneLen(s) <= room && LongestValidPrefix(t, s[RuneLen(s)..], room - RuneLen(s))
    ensures LongestValidPrefix(s[..RuneLen(s)] + t, s, room)
  {
    hide RuneLen, Valid;
    var n := RuneLen(s);
    var r, rest := s[..n] + t, s[n..];
    assert r == s[..|r|] && rest[..|r| - n] == t;
    ValidPrefixSplits(s, |r|);
    forall k | |r| < k <= room && k <= |s| ensures !Valid(s[..k]) {
      ValidPrefixSplits(s, k);
    }
  }

  lemma {:induction false} ForwardIsLongest(s: string, room: nat)
    requires Valid(s)
    ensures LongestValidPrefix(Forward(s, room), s, room)
    ensures |s| > room ==> |Forward(s, room)| + 3 >= room
    decreases |s|
  {
    hide RuneLen;
    var n := RuneLen(s);
    if s == "" {
    } else if n > room {
      forall k | 0 < k <= room && k <= |s| ensures !Valid(s[..k]) {
        ValidPrefixSplits(s, k);
      }
    } else {
      ForwardIsLongest(s[n..], room - n);
      Extend(s, Forward(s[n..], room - n), room);
    }
  }

  lemma {:induction false} LongestIsUnique(a: string, b: string, s: string, limit: nat)
    requires LongestValidPrefix(a, s, limit) && LongestValidPrefix(b, s, limit)
    ensures a == b
  {
    assert a == s[..|a|] && b == s[..|b|];
  }

  /** Main result: on valid text both loops return the same string, the longest valid prefix within
      the limit, at most three bytes short of it. */
  method TruncationsAgree(s: string, maxBytes: nat) returns (backward: string, forward: string)
    requires Valid(s) && maxBytes > 0
    ensures backward == forward && LongestValidPrefix(forward, s, maxBytes)
    ensures |forward| == |s| || maxBytes - 3 <= |forward| <= maxBytes
  {
    backward := TruncateBackward(s, maxBytes);
    forward := TruncateForward(s, maxBytes);
    if |s| > maxBytes {
      ForwardIsLongest(s, maxBytes);
      LongestIsUnique(backward, forward, s, maxBytes);
    }
  }
}
