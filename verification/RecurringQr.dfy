/** The text in a recurring pass's QR code: a token and today's code, bare or at the end of a link. */
module RecurringQr {
  import opened Domain

  datatype QrContent = QrContent(token: string, code: string)

  predicate Alphanumeric(c: char) {
    'A' <= c <= 'Z' || 'a' <= c <= 'z' || '0' <= c <= '9'
  }

  predicate ValidToken(token: string) {
    16 <= |token| <= 128 && forall i :: 0 <= i < |token| ==> Alphanumeric(token[i]) || token[i] == '_' || token[i] == '-'
  }

  predicate ValidCode(code: string) {
    6 <= |code| <= 16 && forall i :: 0 <= i < |code| ==> Alphanumeric(code[i])
  }

  /** The base64url alphabet of section 5 of RFC 4648 by its code points, with or without its two marks. */
  predicate SpelledInBase64Url(s: string, marks: bool) {
    forall i :: 0 <= i < |s| ==>
      var u := s[i] as int;
      48 <= u <= 57 || 65 <= u <= 90 || 97 <= u <= 122 || (marks && (u == 45 || u == 95))
  }

  /** Tokens are 16 to 128 characters of that alphabet, codes 6 to 16 of its letters and digits. */
  lemma WhatIsValid(s: string)
    ensures ValidToken(s) <==> 16 <= |s| <= 128 && SpelledInBase64Url(s, true)
    ensures ValidCode(s) <==> 6 <= |s| <= 16 && SpelledInBase64Url(s, false)
  {
  }

  /** The first place of c in s, or -1. */
  function IndexOf(s: string, c: char): (at: int)
    ensures -1 <= at < |s|
    ensures at == -1 <==> c !in s
    ensures 0 <= at ==> s[at] == c && forall i :: 0 <= i < at ==> s[i] != c
  {
    if s == "" then -1
    else if s[0] == c then 0
    else
      var at := IndexOf(s[1..], c);
      assert s == [s[0]] + s[1..];
      if at < 0 then -1 else at + 1
  }

  function Split(raw: string): (segments: seq<string>)
    ensures segments != []
    decreases |raw|
  {
    var at := IndexOf(raw, '/');
    if at < 0 then [raw] else [raw[..at]] + Split(raw[at + 1..])
  }

  function NonEmpty(segments: seq<string>): seq<string> {
    if segments == [] then []
    else (if segments[0] != "" then [segments[0]] else []) + NonEmpty(segments[1..])
  }

  function LastSegment(raw: string): string {
    if '/' in raw then
      var segments := NonEmpty(Split(raw));
      if segments == [] then "" else segments[|segments| - 1]
    else raw
  }

  function Parse(raw: string): Option<QrContent> {
    var last := LastSegment(raw);
    var at := IndexOf(last, '~');
    if at <= 0 || at == |last| - 1 then None
    else if !ValidToken(last[..at]) || !ValidCode(last[at + 1..]) then None
    else Some(QrContent(last[..at], last[at + 1..]))
  }

  // ---- What the last segment is ----

  predicate AllSlashes(s: string) {
    forall i :: 0 <= i < |s| ==> s[i] == '/'
  }

  /** raw is segment, after a slash or nothing, and before any number of slashes. */
  predicate EndsWith(raw: string, before: string, segment: string, slashes: string) {
    && raw == before + segment + slashes
    && (before == "" || before[|before| - 1] == '/')
    && AllSlashes(slashes)
  }

  lemma {:induction false} NonEmptyHasNoEmpty(segments: seq<string>)
    ensures "" !in NonEmpty(segments)
  {
    if segments != [] {
      NonEmptyHasNoEmpty(segments[1..]);
    }
  }

  lemma LastNonEmpty(raw: string)
    ensures var segments := NonEmpty(Split(raw));
      LastSegment(raw) == if segments == [] then "" else segments[|segments| - 1]
  {
    if '/' !in raw {
      assert NonEmpty([raw]) == (if raw != "" then [raw] else []) + NonEmpty([raw][1..]);
    }
  }

  lemma NoSlash(raw: string)
    requires '/' !in raw
    ensures LastSegment(raw) == raw
  {
  }

  lemma SplitsAt(head: string, rest: string)
    requires '/' !in head
    ensures '/' in head + "/" + rest && Split(head + "/" + rest) == [head] + Split(rest)
  {
    var raw := head + "/" + rest;
    assert raw[|head|] == '/' && forall i :: 0 <= i < |head| ==> raw[i] == head[i];
    assert IndexOf(raw, '/') == |head|;
    assert raw[..|head|] == head && raw[|head| + 1..] == rest;
  }

  lemma CutAt(head: string, rest: string)
    requires '/' !in head
    ensures LastSegment(head + "/" + rest) == if LastSegment(rest) != "" then LastSegment(rest) else head
  {
    SplitsAt(head, rest);
    LastNonEmpty(head + "/" + rest);
    LastNonEmpty(rest);
    NonEmptyHasNoEmpty(Split(rest));
    assert ([head] + Split(rest))[1..] == Split(rest);
    hide Split, LastSegment;
  }

  /** Cuts raw at its first slash. */
  lemma Cut(raw: string) returns (head: string, rest: string)
    requires '/' in raw
    ensures raw == head + "/" + rest && '/' !in head
    ensures LastSegment(raw) == if LastSegment(rest) != "" then LastSegment(rest) else head
  {
    var at := IndexOf(raw, '/');
    head, rest := raw[..at], raw[at + 1..];
    assert raw == head + "/" + rest;
    CutAt(head, rest);
  }

  lemma {:induction false} OnlySlashes(raw: string)
    ensures LastSegment(raw) == "" <==> AllSlashes(raw)
    decreases |raw|
  {
    hide LastSegment;
    if '/' in raw {
      var head, rest := Cut(raw);
      OnlySlashes(rest);
      assert head != "" ==> raw[0] == head[0] && head[0] in head;
      assert forall i :: 0 <= i < |rest| ==> rest[i] == raw[|head| + 1 + i];
      assert head == "" ==> forall i :: 1 <= i < |raw| ==> raw[i] == rest[i - 1];
    } else {
      NoSlash(raw);
      assert raw != "" ==> raw[0] in raw;
    }
  }

  lemma {:induction false} LastSegmentEnds(raw: string) returns (before: string, slashes: string)
    requires LastSegment(raw) != ""
    ensures '/' !in LastSegment(raw) && EndsWith(raw, before, LastSegment(raw), slashes)
    decreases |raw|
  {
    hide LastSegment;
    before, slashes := "", "";
    if '/' in raw {
      var head, rest := Cut(raw);
      if LastSegment(rest) != "" {
        var nearer;
        nearer, slashes := LastSegmentEnds(rest);
        before := head + "/" + nearer;
        assert raw == before + LastSegment(rest) + slashes;
      } else {
        OnlySlashes(rest);
        slashes := "/" + rest;
        assert raw == head + slashes;
      }
    } else {
      NoSlash(raw);
    }
  }

  lemma {:induction false} EndIsLastSegment(before: string, segment: string, slashes: string)
    requires segment != "" && '/' !in segment && AllSlashes(slashes)
    requires before == "" || before[|before| - 1] == '/'
    ensures LastSegment(before + segment + slashes) == segment
    decreases |before|
  {
    hide LastSegment;
    if before != "" {
      var head, rest := Cut(before);
      EndIsLastSegment(rest, segment, slashes);
      assert before + segment + slashes == head + "/" + (rest + segment + slashes);
      CutAt(head, rest + segment + slashes);
    } else if slashes != "" {
      assert before + segment + slashes == segment + "/" + slashes[1..];
      OnlySlashes(slashes[1..]);
      CutAt(segment, slashes[1..]);
    } else {
      assert before + segment + slashes == segment;
      NoSlash(segment);
    }
  }

  // ---- Parsing ----

  /** The printed form reads back, bare or at the end of any link, however many slashes follow. */
  lemma PrintedReadsBack(content: QrContent, before: string, slashes: string)
    requires ValidToken(content.token) && ValidCode(content.code)
    requires before == "" || before[|before| - 1] == '/'
    requires AllSlashes(slashes)
    ensures Parse(before + (content.token + "~" + content.code) + slashes) == Some(content)
  {
    var segment := content.token + "~" + content.code;
    hide LastSegment;
    EndIsLastSegment(before, segment, slashes);
    assert segment[|content.token|] == '~' && forall i :: 0 <= i < |content.token| ==> segment[i] == content.token[i];
    assert IndexOf(segment, '~') == |content.token|;
    hide IndexOf;
    assert segment[..|content.token|] == content.token && segment[|content.token| + 1..] == content.code;
  }

  /**
   * Parsing succeeds exactly when the last non-empty segment is a valid token, a tilde and a valid code, and gives
   * those two.
   */
  lemma ParseExactly(raw: string, content: QrContent)
    ensures Parse(raw) == Some(content)
      <==> (ValidToken(content.token) && ValidCode(content.code)
            && exists before, slashes :: EndsWith(raw, before, content.token + "~" + content.code, slashes))
  {
    var segment := content.token + "~" + content.code;
    if Parse(raw) == Some(content) {
      var last := LastSegment(raw);
      var at := IndexOf(last, '~');
      assert last == last[..at] + "~" + last[at + 1..];
      var before, slashes := LastSegmentEnds(raw);
      assert EndsWith(raw, before, segment, slashes);
    }
    forall before, slashes | ValidToken(content.token) && ValidCode(content.code) && EndsWith(raw, before, segment, slashes)
      ensures Parse(raw) == Some(content)
    {
      PrintedReadsBack(content, before, slashes);
    }
  }
}
