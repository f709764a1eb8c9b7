/** Framing of the JSON-RPC byte stream: messages carry no length prefix and
    no delimiter, so a message ends where its outermost `{` is closed.
    Braces inside JSON strings are counted like any other brace. */
module Framing {
  import opened Json
  import opened Wrappers

  /** The change of brace depth one character causes. */
  function Delta(c: char): int
  {
    if c == '{' then 1 else if c == '}' then -1 else 0
  }

  /** Brace depth after reading all of `s`. */
  function Depth(s: string): int
    decreases |s|
  {
    if |s| == 0 then 0 else Depth(s[..|s| - 1]) + Delta(s[|s| - 1])
  }

  /** Every non-empty prefix of `s` leaves a brace open: `s` holds no complete message. */
  ghost predicate Open(s: string)
  {
    forall j :: 0 < j <= |s| ==> Depth(s[..j]) > 0
  }

  /** `m` is one complete message: it opens with `{`, depth returns to 0 at
      its last character and at no earlier one (so it never goes negative). */
  ghost predicate Balanced(m: string)
  {
    && |m| > 0
    && m[0] == '{'
    && Depth(m) == 0
    && forall j :: 0 < j < |m| ==> Depth(m[..j]) > 0
  }

  /** What one call of the scanner leaves: the first message, if complete, and the rest. */
  datatype Next = Next(message: Option<string>, rest: string)

  /** What the scanner is promised to return for `buffer`. */
  ghost predicate Scanned(buffer: string, r: Result<Next>)
  {
    if |buffer| == 0 then r == Success(Next(None, buffer))
    else if buffer[0] != '{' then r == Failure(FramingError(buffer))
    else (
      && r.Success?
      && match r.value.message
         case Some(m) => m + r.value.rest == buffer && Balanced(m)
         case None => r.value.rest == buffer && Open(buffer))
  }

  lemma DepthStep(s: string, j: nat)
    requires 0 < j <= |s|
    ensures Depth(s[..j]) == Depth(s[..j - 1]) + Delta(s[j - 1])
  {
    assert s[..j][..j - 1] == s[..j - 1];
  }

  /** Cuts the first complete message off `buffer` by counting brace depth.
      An empty buffer yields nothing; a buffer not opening with `{` is a
      corrupted stream. */
  method NextMessage(buffer: string) returns (r: Result<Next>)
    ensures Scanned(buffer, r)
  {
    if |buffer| == 0 {
      return Success(Next(None, buffer));
    }
    var depth := 0;
    if buffer[0] != '{' {
      return Failure(FramingError(buffer));
    }
    var pos := 0;
    while pos < |buffer|
      invariant 0 <= pos <= |buffer|
      invariant depth == Depth(buffer[..pos])
      invariant forall j :: 0 < j <= pos ==> Depth(buffer[..j]) > 0
    {
      var c := buffer[pos];
      DepthStep(buffer, pos + 1);
      pos := pos + 1;
      if c == '{' {
        depth := depth + 1;
      }
      if c == '}' {
        depth := depth - 1;
        if depth == 0 {
          var m := buffer[0..pos];
          assert forall j :: 0 < j < |m| ==> m[..j] == buffer[..j];
          assert m == buffer[..pos];
          assert m + buffer[pos..] == buffer;
          return Success(Next(Some(m), buffer[pos..]));
        }
      }
    }
    assert buffer[..pos] == buffer;
    return Success(Next(None, buffer));
  }

  /** A buffer opening with `{` that is not `Open` has a complete first message. */
  lemma BoundaryExists(b: string)
    requires |b| > 0 && b[0] == '{' && !Open(b)
    ensures exists k :: 0 < k <= |b| && Balanced(b[..k])
  {
    var j := 1;
    DepthStep(b, 1);
    assert b[..0] == [];
    while j <= |b| && Depth(b[..j]) > 0
      invariant 1 <= j <= |b| + 1
      invariant forall i :: 0 < i < j ==> Depth(b[..i]) > 0
      decreases |b| + 1 - j
    {
      j := j + 1;
    }
    assert j <= |b|;
    DepthStep(b, j);
    var m := b[..j];
    assert forall i :: 0 < i < |m| ==> m[..i] == b[..i];
    assert Balanced(m);
  }

  /** Inside a complete first message every non-empty prefix of the buffer leaves a brace open. */
  lemma InsideMessage(b: string, k: nat, j: nat)
    requires 0 < k <= |b| && Balanced(b[..k]) && 0 < j < k
    ensures Depth(b[..j]) > 0
  {
    assert b[..k][..j] == b[..j];
  }

  /** Two complete first messages of one buffer are the same message. */
  lemma BoundaryUnique(b: string, k1: nat, k2: nat)
    requires 0 < k1 <= |b| && Balanced(b[..k1])
    requires 0 < k2 <= |b| && Balanced(b[..k2])
    ensures k1 == k2
  {
    if k1 < k2 {
      InsideMessage(b, k2, k1);
    } else if k2 < k1 {
      InsideMessage(b, k1, k2);
    }
  }

  /** Concatenation of a sequence of messages. */
  function Concat(ms: seq<string>): string
    decreases |ms|
  {
    if |ms| == 0 then [] else ms[0] + Concat(ms[1..])
  }

  /** The messages a drain of `b` hands on, the buffer it retains, and whether
      it stopped on a corrupted stream. */
  datatype Frames = Frames(messages: seq<string>, rest: string, corrupt: bool)

  /** Reference definition of draining a buffer: repeatedly cut the first
      complete message. The messages and the retained buffer make up the input;
      every message is complete; a retained buffer without corruption holds no
      complete message, and a corrupted one does not open with `{`. */
  ghost function Split(b: string): Frames
    decreases |b|
  {
    if |b| == 0 then Frames([], b, false)
    else if b[0] != '{' then Frames([], b, true)
    else if Open(b) then Frames([], b, false)
    else
      var k := FirstCut(b);
      var f := Split(b[k..]);
      Frames([b[..k]] + f.messages, f.rest, f.corrupt)
  }

  /** The length of the complete first message of `b`. */
  ghost function FirstCut(b: string): (k: nat)
    requires |b| > 0 && b[0] == '{' && !Open(b)
    ensures 0 < k <= |b| && Balanced(b[..k])
  {
    BoundaryExists(b);
    var k :| 0 < k <= |b| && Balanced(b[..k]);
    k
  }

  /** The recursive case of `Split`, with the cut named. */
  lemma SplitCut(b: string) returns (k: nat)
    requires |b| > 0 && b[0] == '{' && !Open(b)
    ensures 0 < k <= |b| && Balanced(b[..k])
    ensures Split(b) == Frames([b[..k]] + Split(b[k..]).messages, Split(b[k..]).rest, Split(b[k..]).corrupt)
  {
    k := FirstCut(b);
  }

  /** The drained messages followed by the retained buffer make up the input,
      and every drained message is complete. */
  lemma {:induction false} SplitCovers(b: string)
    ensures Concat(Split(b).messages) + Split(b).rest == b
    decreases |b|
  {
    if |b| > 0 && b[0] == '{' && !Open(b) {
      var k := SplitCut(b);
      SplitCovers(b[k..]);
      CoverStep(b, k, Split(b[k..]).messages, Split(b[k..]).rest);
    }
  }

  /** Putting the first message back in front of a covering of the rest
      covers the whole buffer. */
  lemma CoverStep(b: string, k: nat, ms: seq<string>, rest: string)
    requires k <= |b| && Concat(ms) + rest == b[k..]
    ensures Concat([b[..k]] + ms) + rest == b
  {
    var all := [b[..k]] + ms;
    assert all[0] == b[..k] && all[1..] == ms;
    StringAssoc(b[..k], Concat(ms), rest);
    assert b[..k] + b[k..] == b;
  }

  lemma StringAssoc(x: string, y: string, z: string)
    ensures (x + y) + z == x + (y + z)
  {
  }

  /** Every drained message is complete. */
  lemma {:induction false} SplitBalanced(b: string)
    ensures forall i :: 0 <= i < |Split(b).messages| ==> Balanced(Split(b).messages[i])
    decreases |b|
  {
    if |b| > 0 && b[0] == '{' && !Open(b) {
      var k := SplitCut(b);
      SplitBalanced(b[k..]);
    }
  }

  /** The retained buffer holds no complete message unless the stream is
      corrupted, and a corrupted one does not open with `{`. */
  lemma {:induction false} SplitRest(b: string)
    ensures !Split(b).corrupt ==> Split(b).rest == [] || (Split(b).rest[0] == '{' && Open(Split(b).rest))
    ensures Split(b).corrupt ==> |Split(b).rest| > 0 && Split(b).rest[0] != '{'
    decreases |b|
  {
    if |b| > 0 && b[0] == '{' && !Open(b) {
      var k := SplitCut(b);
      SplitRest(b[k..]);
    }
  }

  /** One step of the reference drain agrees with what the scanner returned. */
  lemma SplitStep(b: string, r: Result<Next>)
    requires Scanned(b, r)
    ensures r.Failure? ==> Split(b) == Frames([], b, true)
    ensures r.Success? && r.value.message.None? ==> Split(b) == Frames([], b, false)
    ensures r.Success? && r.value.message.Some? ==>
      var m := r.value.message.value;
      Split(b) == Frames([m] + Split(r.value.rest).messages, Split(r.value.rest).rest, Split(r.value.rest).corrupt)
  {
    if r.Success? && r.value.message.Some? {
      var m := r.value.message.value;
      assert b[..|m|] == m;
      assert b[|m|..] == r.value.rest;
      assert !Open(b) by {
        assert Depth(b[..|m|]) == 0;
      }
      var k := SplitCut(b);
      BoundaryUnique(b, k, |m|);
    }
  }

  /** The reader thread's inner loop: cut complete messages off `buffer`
      until none is left, or until the remaining buffer is corrupted. */
  method Drain(buffer: string) returns (messages: seq<string>, rest: string, corrupt: bool)
    ensures Frames(messages, rest, corrupt) == Split(buffer)
  {
    messages := [];
    var b := buffer;
    while true
      invariant Split(buffer) == Frames(messages + Split(b).messages, Split(b).rest, Split(b).corrupt)
      decreases |b|
    {
      var m, b', stop := DrainOnce(b);
      if stop.Some? {
        assert messages + [] == messages;
        return messages, b, stop.value;
      }
      assert messages + ([m] + Split(b').messages) == (messages + [m]) + Split(b').messages;
      messages := messages + [m];
      b := b';
    }
  }

  /** One pass of the drain loop: either the next message and the buffer
      after it, or the verdict that draining stops here (`true` when the
      buffer is corrupted). */
  method DrainOnce(b: string) returns (m: string, rest: string, stop: Option<bool>)
    ensures stop.Some? ==> Split(b) == Frames([], b, stop.value)
    ensures stop.None? ==> |rest| < |b| && Split(b) == Frames([m] + Split(rest).messages, Split(rest).rest, Split(rest).corrupt)
  {
    var r := NextMessage(b);
    SplitStep(b, r);
    if r.Failure? {
      return [], b, Some(true);
    }
    if r.value.message.None? {
      return [], b, Some(false);
    }
    return r.value.message.value, r.value.rest, None;
  }

  /** Chunking invariance: feeding `b` and then `c` to the reader (the second
      drain starting from the buffer the first one retained) hands on the
      same messages and retains the same buffer as feeding `b + c` at once. */
  lemma {:induction false} SplitChunks(b: string, c: string)
    ensures
      var f := Split(b);
      var g := Split(f.rest + c);
      Split(b + c) == Frames(f.messages + g.messages, g.rest, g.corrupt)
    decreases |b|
  {
    if |b| == 0 {
      assert b + c == c;
    } else if b[0] != '{' || Open(b) {
      assert Split(b) == Frames([], b, b[0] != '{');
    } else {
      var k := CutSurvivesAppend(b, c);
      SplitChunks(b[k..], c);
      var f := Split(b[k..]);
      var g := Split(f.rest + c);
      assert [b[..k]] + (f.messages + g.messages) == ([b[..k]] + f.messages) + g.messages;
    }
  }

  /** A complete first message of `b` is also the first message of `b + c`. */
  lemma CutSurvivesAppend(b: string, c: string) returns (k: nat)
    requires |b| > 0 && b[0] == '{' && !Open(b)
    ensures 0 < k <= |b|
    ensures Split(b) == Frames([b[..k]] + Split(b[k..]).messages, Split(b[k..]).rest, Split(b[k..]).corrupt)
    ensures Split(b + c) == Frames([b[..k]] + Split(b[k..] + c).messages, Split(b[k..] + c).rest, Split(b[k..] + c).corrupt)
  {
    k := SplitCut(b);
    var bc := b + c;
    assert bc[..k] == b[..k];
    assert bc[k..] == b[k..] + c;
    assert !Open(bc) by {
      assert Depth(bc[..k]) == 0;
    }
    var k2 := SplitCut(bc);
    BoundaryUnique(bc, k, k2);
  }
}
