/**
 * The request side of the Redis Serialization Protocol: a command arrives as
 * an array of bulk strings, "*<argc>\r\n" followed by "$<len>\r\n<arg>\r\n"
 * for each argument. The decoder splits the input on "\r\n"; if the first line
 * opens an array ("*"), every line starting with "$" makes the line after it
 * the next token. The declared lengths are never checked.
 */
module Resp {
  import opened GoLib

  /** A "$<len>" line announcing a bulk string. */
  predicate IsBulkMarker(line: string) {
    |line| > 0 && line[0] == '$'
  }

  /**
   * The tokens the decoder's loop collects from lines[i..]: a marker line with
   * a line after it contributes that line, and the walk resumes after it.
   */
  function BulkTokens(lines: seq<string>, i: nat): (tokens: seq<string>)
    ensures i <= |lines| ==> 2 * |tokens| <= |lines| - i
    decreases |lines| - i
  {
    if i >= |lines| then []
    else if IsBulkMarker(lines[i]) then
      if i + 1 < |lines| then [lines[i + 1]] + BulkTokens(lines, i + 2) else []
    else BulkTokens(lines, i + 1)
  }

  /** The positions of the marker lines whose following line became a token. */
  ghost function MarkerPositions(lines: seq<string>, i: nat): seq<nat>
    decreases |lines| - i
  {
    if i >= |lines| then []
    else if IsBulkMarker(lines[i]) then
      if i + 1 < |lines| then [i] + MarkerPositions(lines, i + 2) else []
    else MarkerPositions(lines, i + 1)
  }

  /** Each token is the line right after a marker line at the matching position. */
  lemma {:induction false} TokensFollowTheirMarkers(lines: seq<string>, i: nat)
    requires i <= |lines|
    ensures |MarkerPositions(lines, i)| == |BulkTokens(lines, i)|
    ensures forall k :: 0 <= k < |MarkerPositions(lines, i)| ==>
      var p := MarkerPositions(lines, i)[k];
      i <= p && p + 1 < |lines| && IsBulkMarker(lines[p]) && BulkTokens(lines, i)[k] == lines[p + 1]
    decreases |lines| - i
  {
    var pos, tokens := MarkerPositions(lines, i), BulkTokens(lines, i);
    if i == |lines| {
    } else if IsBulkMarker(lines[i]) {
      if i + 1 < |lines| {
        TokensFollowTheirMarkers(lines, i + 2);
        var pos', tokens' := MarkerPositions(lines, i + 2), BulkTokens(lines, i + 2);
        assert pos == [i] + pos' && tokens == [lines[i + 1]] + tokens';
        forall k | 0 <= k < |pos|
          ensures i <= pos[k] && pos[k] + 1 < |lines| && IsBulkMarker(lines[pos[k]])
          ensures tokens[k] == lines[pos[k] + 1]
        {
          if k > 0 {
            assert pos[k] == pos'[k - 1] && tokens[k] == tokens'[k - 1];
          }
        }
      }
    } else {
      TokensFollowTheirMarkers(lines, i + 1);
      assert pos == MarkerPositions(lines, i + 1) && tokens == BulkTokens(lines, i + 1);
    }
  }

  /** The marker positions increase by at least two: a token is never read again as a marker. */
  lemma {:induction false} MarkersAreApart(lines: seq<string>, i: nat)
    requires i <= |lines|
    ensures forall k :: 0 <= k < |MarkerPositions(lines, i)| ==> i <= MarkerPositions(lines, i)[k]
    ensures forall k, l :: 0 <= k < l < |MarkerPositions(lines, i)| ==>
      MarkerPositions(lines, i)[k] + 2 <= MarkerPositions(lines, i)[l]
    decreases |lines| - i
  {
    var pos := MarkerPositions(lines, i);
    if i == |lines| {
    } else if IsBulkMarker(lines[i]) {
      if i + 1 < |lines| {
        MarkersAreApart(lines, i + 2);
        var pos' := MarkerPositions(lines, i + 2);
        assert pos == [i] + pos';
        forall k | 0 <= k < |pos| ensures i <= pos[k] {
          if k > 0 {
            assert pos[k] == pos'[k - 1];
          }
        }
        forall k, l | 0 <= k < l < |pos| ensures pos[k] + 2 <= pos[l] {
          assert pos[l] == pos'[l - 1];
          if k > 0 {
            assert pos[k] == pos'[k - 1];
          }
        }
      }
    } else {
      MarkersAreApart(lines, i + 1);
      assert pos == MarkerPositions(lines, i + 1);
    }
  }

  /**
   * No marker is skipped: every marker line from line i on that has a line
   * after it is either at a marker position or is itself a token.
   */
  lemma {:induction false} NoMarkerSkipped(lines: seq<string>, i: nat)
    requires i <= |lines|
    ensures forall j :: i <= j < |lines| - 1 && IsBulkMarker(lines[j]) ==>
      j in MarkerPositions(lines, i) || (j >= 1 && j - 1 in MarkerPositions(lines, i))
    decreases |lines| - i
  {
    var pos := MarkerPositions(lines, i);
    if i == |lines| {
    } else if IsBulkMarker(lines[i]) {
      if i + 1 < |lines| {
        NoMarkerSkipped(lines, i + 2);
        var pos' := MarkerPositions(lines, i + 2);
        assert pos == [i] + pos';
        forall j | i <= j < |lines| - 1 && IsBulkMarker(lines[j])
          ensures j in pos || (j >= 1 && j - 1 in pos)
        {
          if j == i {
            assert pos[0] == j;
          } else if j == i + 1 {
            assert pos[0] == j - 1;
          } else {
            assert j in pos' || (j >= 1 && j - 1 in pos');
          }
        }
      }
    } else {
      NoMarkerSkipped(lines, i + 1);
      assert pos == MarkerPositions(lines, i + 1);
    }
  }

  /**
   * extractRESPString as written. Its first step indexes the first character
   * of the first line, so it is only defined when that line is non-empty:
   * on the empty input, or one starting with "\r\n", the Go code panics.
   */
  method ExtractRESPString(input: string) returns (cmd: seq<string>)
    requires |SplitCRLF(input)[0]| > 0
    ensures input[0] == '*' ==> cmd == BulkTokens(SplitCRLF(input), 0)
    ensures input[0] != '*' ==> cmd == []
    ensures 2 * |cmd| < |SplitCRLF(input)|
  {
    var chars := SplitCRLF(input);
    cmd := [];
    if chars[0][0] == '*' {
      var i := 0;
      while i < |chars|
        invariant 0 <= i <= |chars| + 1
        invariant cmd + BulkTokens(chars, i) == BulkTokens(chars, 0)
        decreases |chars| + 1 - i
      {
        if |chars[i]| > 0 && chars[i][0] == '$' {
          i := i + 1;
          if i < |chars| {
            cmd := cmd + [chars[i]];
          }
        }
        i := i + 1;
      }
      assert BulkTokens(chars, 0) == BulkTokens(chars, 1);
    }
  }

  /**
   * The decoder with the missing guard in place: an input whose first line is
   * empty is not a command frame and decodes to no tokens.
   */
  function Decode(input: string): (tokens: seq<string>)
  {
    var lines := SplitCRLF(input);
    if |lines[0]| > 0 && lines[0][0] == '*' then BulkTokens(lines, 0) else []
  }

  /** The guarded decoder: defined on every input, including the empty one. */
  method DecodeRequest(input: string) returns (cmd: seq<string>)
    ensures cmd == Decode(input)
    ensures |input| == 0 || StartsWithCRLF(input) ==> cmd == []
  {
    FirstPieceEmpty(input);
    if |input| == 0 || StartsWithCRLF(input) {
      cmd := [];
    } else {
      cmd := ExtractRESPString(input);
    }
  }

  /** The inputs on which extractRESPString as written panics. */
  lemma EmptyFirstLineInputs(input: string)
    ensures !(|SplitCRLF(input)[0]| > 0) <==> |input| == 0 || StartsWithCRLF(input)
    ensures Decode(input) == [] <== |input| == 0 || StartsWithCRLF(input)
  {
    FirstPieceEmpty(input);
  }

  /** Input that does not open an array, such as a "+OK" status reply, gives no tokens. */
  lemma NonArrayInputDecodesEmpty(input: string)
    requires |input| > 0 && input[0] != '*'
    ensures Decode(input) == []
  {
  }

  /** A frame yields at most one token for every two lines after the first. */
  lemma DecodeLength(input: string)
    ensures 2 * |Decode(input)| < |SplitCRLF(input)|
  {
    var lines := SplitCRLF(input);
    if |lines[0]| > 0 && lines[0][0] == '*' {
      assert BulkTokens(lines, 0) == BulkTokens(lines, 1);
    }
  }

  // ---------------------------------------------------------------------------
  // Well-formed frames, as a client sends them

  /** A RESP bulk string, "$<len>\r\n<text>\r\n": one argument of a request frame, and the reply to ECHO and GET. */
  function BulkString(arg: string): string {
    "$" + Itoa(|arg|) + CRLF + arg + CRLF
  }

  /**
   * A bulk string of text free of "\r\n" splits into its length line, the
   * text and nothing else, and the length line reads back as the text's length.
   */
  lemma BulkStringFraming(text: string)
    requires NoCRLF(text) && |text| <= MaxInt64
    ensures SplitCRLF(BulkString(text)) == ["$" + Itoa(|text|), text, ""]
    ensures Atoi(("$" + Itoa(|text|))[1..]) == |text|
  {
    var header := "$" + Itoa(|text|);
    MarkerHasNoCRLF(|text|);
    SplitTwoLines(header, text);
    assert header[1..] == Itoa(|text|);
    AtoiItoa(|text|);
  }

  function EncodeArgs(args: seq<string>): string {
    if |args| == 0 then "" else BulkString(args[0]) + EncodeArgs(args[1..])
  }

  /** "*<argc>\r\n" followed by each argument as a bulk string. */
  function EncodeCommand(args: seq<string>): string {
    "*" + Itoa(|args|) + CRLF + EncodeArgs(args)
  }

  /** The lines of EncodeArgs(args): a marker and the argument, per argument. */
  function ArgLines(args: seq<string>): seq<string> {
    if |args| == 0 then [] else ["$" + Itoa(|args[0]|), args[0]] + ArgLines(args[1..])
  }

  lemma {:induction false} MarkerHasNoCRLF(n: nat)
    ensures NoCRLF("$" + Itoa(n)) && NoCRLF("*" + Itoa(n))
  {
    DigitsHaveNoCRLF(Itoa(n));
    assert ("$" + Itoa(n))[1..] == Itoa(n);
    assert ("*" + Itoa(n))[1..] == Itoa(n);
  }

  lemma {:induction false} SplitEncodedArgs(args: seq<string>)
    requires forall k :: 0 <= k < |args| ==> NoCRLF(args[k])
    ensures SplitCRLF(EncodeArgs(args)) == ArgLines(args) + [""]
    decreases |args|
  {
    if |args| > 0 {
      var a := args[0];
      var marker := "$" + Itoa(|a|);
      SplitEncodedArgs(args[1..]);
      MarkerHasNoCRLF(|a|);
      assert EncodeArgs(args) == marker + CRLF + (a + CRLF + EncodeArgs(args[1..]));
      SplitAfterLine(marker, a + CRLF + EncodeArgs(args[1..]));
      SplitAfterLine(a, EncodeArgs(args[1..]));
    }
  }

  lemma {:induction false} BulkTokensOfArgLines(prefix: seq<string>, args: seq<string>)
    ensures BulkTokens(prefix + ArgLines(args) + [""], |prefix|) == args
    decreases |args|
  {
    var lines := prefix + ArgLines(args) + [""];
    if |args| == 0 {
      assert lines[|prefix|] == "";
    } else {
      var next := prefix + ["$" + Itoa(|args[0]|), args[0]];
      assert lines == next + ArgLines(args[1..]) + [""];
      BulkTokensOfArgLines(next, args[1..]);
      assert lines[|prefix|] == "$" + Itoa(|args[0]|);
      assert lines[|prefix| + 1] == args[0];
    }
  }

  /**
   * Decoding a well-formed frame gives back exactly its arguments, in order,
   * whatever they contain apart from "\r\n" (an argument starting with "$"
   * included, as it is consumed as a token).
   */
  lemma DecodeEncodedCommand(args: seq<string>)
    requires forall k :: 0 <= k < |args| ==> NoCRLF(args[k])
    ensures Decode(EncodeCommand(args)) == args
  {
    var header := "*" + Itoa(|args|);
    MarkerHasNoCRLF(|args|);
    SplitEncodedArgs(args);
    SplitAfterLine(header, EncodeArgs(args));
    assert EncodeCommand(args) == header + CRLF + EncodeArgs(args);
    var lines := [header] + ArgLines(args) + [""];
    assert SplitCRLF(EncodeCommand(args)) == lines;
    BulkTokensOfArgLines([header], args);
    assert BulkTokens(lines, 0) == BulkTokens(lines, 1);
  }
}
