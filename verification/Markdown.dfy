/** Managed-file markers in article markdown: `[?#&]fileId=<id>`. */
module Markdown {
  import opened Wrappers

  const MARKER_NAME := "fileId="
  const ID_OFFSET := 8

  predicate IsDelimiter(c: char) {
    c == '?' || c == '#' || c == '&'
  }

  predicate IsIdChar(c: char) {
    'A' <= c <= 'Z' || 'a' <= c <= 'z' || '0' <= c <= '9' || c == '_' || c == '-'
  }

  predicate IsIdText(s: string) {
    s != [] && forall c :: c in s ==> IsIdChar(c)
  }

  /** One past the last character of the identifier run that starts at `i`. */
  function RunEnd(s: string, i: nat): (e: nat)
    requires i <= |s|
    ensures i <= e <= |s|
    ensures forall k :: i <= k < e ==> IsIdChar(s[k])
    ensures e < |s| ==> !IsIdChar(s[e])
    decreases |s| - i
  {
    if i < |s| && IsIdChar(s[i]) then RunEnd(s, i + 1) else i
  }

  /** The pattern matches at position `i`. */
  predicate MarkerAt(s: string, i: nat) {
    && i + ID_OFFSET < |s|
    && IsDelimiter(s[i]) && s[i + 1..i + ID_OFFSET] == MARKER_NAME && IsIdChar(s[i + ID_OFFSET])
  }

  function IdAt(s: string, i: nat): string
    requires MarkerAt(s, i)
  {
    s[i + ID_OFFSET..RunEnd(s, i + ID_OFFSET)]
  }

  /** What the pattern captures at position `i`. */
  function Captured(s: string, i: nat): Option<string> {
    if MarkerAt(s, i) then Some(IdAt(s, i)) else None
  }

  /** The pattern `[?#&]fileId=([A-Za-z0-9_-]+)`, read off the text from position `i` on: one of
      three characters, the name, and the longest run of identifier characters. */
  ghost predicate Reads(s: string, i: nat, id: string) {
    exists mark: char, rest: string :: ReadsAs(s, i, mark, id, rest)
  }

  predicate ReadsAs(s: string, i: nat, mark: char, id: string, rest: string) {
    && i <= |s| && s[i..] == [mark] + "fileId=" + id + rest && (mark == '?' || mark == '#' || mark == '&')
    && id != "" && (rest == "" || !IsIdChar(rest[0]))
    && forall c :: c in id ==> 'A' <= c <= 'Z' || 'a' <= c <= 'z' || '0' <= c <= '9' || c == '_' || c == '-'
  }

  /** The left-to-right, non-overlapping scan of `findall`. */
  function Scan(s: string, i: nat): seq<string>
    requires i <= |s|
    decreases |s| - i
  {
    if i == |s| then []
    else if MarkerAt(s, i) then
      assert RunEnd(s, i + ID_OFFSET) > i;
      [IdAt(s, i)] + Scan(s, RunEnd(s, i + ID_OFFSET))
    else Scan(s, i + 1)
  }

  function ExtractFileIds(content: string): set<string> {
    set id | id in Scan(content, 0)
  }

  /** No marker starts inside a matched marker, so nothing is lost by skipping it. */
  lemma NoMarkerInside(s: string, i: nat, j: nat)
    requires MarkerAt(s, i) && i < j < RunEnd(s, i + ID_OFFSET)
    ensures !MarkerAt(s, j)
  {
    if j < i + ID_OFFSET {
      assert s[j] == s[i + 1..i + ID_OFFSET][j - i - 1] == MARKER_NAME[j - i - 1];
    }
  }

  lemma {:induction false} ScanFindsMarkers(s: string, i: nat, id: string)
    requires i <= |s|
    ensures id in Scan(s, i) <==> exists j :: i <= j < |s| && Captured(s, j) == Some(id)
    decreases |s| - i
  {
    if i < |s| {
      if MarkerAt(s, i) {
        var e := RunEnd(s, i + ID_OFFSET);
        ScanFindsMarkers(s, e, id);
        forall j | i < j < e ensures Captured(s, j).None? { NoMarkerInside(s, i, j); }
        assert Captured(s, i) == Some(IdAt(s, i));
      } else {
        ScanFindsMarkers(s, i + 1, id);
      }
    }
  }

  /** The scan returns exactly the identifiers of the markers at all positions. */
  lemma ExtractIsAllMarkers(content: string, id: string)
    ensures id in ExtractFileIds(content) <==> exists j :: 0 <= j < |content| && Captured(content, j) == Some(id)
  {
    ScanFindsMarkers(content, 0, id);
  }

  function MarkdownUrl(accessUrl: string, id: string): string {
    accessUrl + ("#" + MARKER_NAME) + id
  }

  lemma {:induction false} RunEndShift(p: string, q: string, k: nat)
    requires k <= |q|
    ensures RunEnd(p + q, |p| + k) == |p| + RunEnd(q, k)
    decreases |q| - k
  {
    if k < |q| && IsIdChar(q[k]) { RunEndShift(p, q, k + 1); }
  }

  lemma {:induction false} RunEndThrough(id: string, after: string, k: nat)
    requires IsIdText(id) && k <= |id|
    ensures RunEnd(id + after, k) == |id| + RunEnd(after, 0)
    decreases |id| - k
  {
    if k < |id| {
      assert id[k] in id;
      RunEndThrough(id, after, k + 1);
    } else {
      RunEndShift(id, after, 0);
    }
  }

  lemma MarkerJoin(u: string, mark: char, q: string)
    requires IsDelimiter(mark) && q != [] && IsIdChar(q[0])
    ensures Captured(u + ([mark] + MARKER_NAME) + q, |u|) == Some(q[..RunEnd(q, 0)])
  {
    var head := [mark] + MARKER_NAME;
    var text := u + head + q;
    assert |head| == ID_OFFSET && head[0] == mark;
    assert text[|u|] == head[0];
    assert text[|u| + 1..|u| + ID_OFFSET] == head[1..];
    assert head[1..] == MARKER_NAME;
    assert text[|u| + ID_OFFSET] == q[0];
    RunEndShift(u + head, q, 0);
    assert text[|u + head|..|u + head| + RunEnd(q, 0)] == q[..RunEnd(q, 0)];
  }

  lemma ReadIsCaptured(u: string, mark: char, id: string, rest: string)
    requires IsDelimiter(mark) && IsIdText(id) && (rest == "" || !IsIdChar(rest[0]))
    ensures Captured(u + ([mark] + MARKER_NAME) + (id + rest), |u|) == Some(id)
  {
    hide Captured;
    var q := id + rest;
    assert q[0] == id[0] && id[0] in id;
    MarkerJoin(u, mark, q);
    RunEndThrough(id, rest, 0);
    assert q[..|id|] == id;
  }

  lemma Cut(s: string, i: nat, j: nat, k: nat)
    requires i < j <= k <= |s|
    ensures s[i..] == [s[i]] + s[i + 1..j] + s[j..k] + s[k..]
  {
  }

  lemma Paste(s: string, i: nat, a: string, b: string, c: string, d: string)
    requires i <= |s| && s[i..] == a + b + c + d
    ensures s == s[..i] + (a + b) + (c + d)
  {
    assert s == s[..i] + s[i..];
  }

  /** What is captured is what the pattern reads. */
  lemma CapturedIsRead(s: string, i: nat, id: string)
    ensures Captured(s, i) == Some(id) <==> Reads(s, i, id)
  {
    if Captured(s, i) == Some(id) {
      var e := RunEnd(s, i + ID_OFFSET);
      Cut(s, i, i + ID_OFFSET, e);
      var mark, rest := s[i], s[e..];
      assert id[0] == s[i + ID_OFFSET];
      assert ReadsAs(s, i, mark, id, rest);
    }
    if Reads(s, i, id) {
      var mark: char, rest: string :| ReadsAs(s, i, mark, id, rest);
      Paste(s, i, [mark], "fileId=", id, rest);
      ReadIsCaptured(s[..i], mark, id, rest);
    }
  }

  lemma Regroup(a: string, b: string, c: string, d: string, e: string)
    ensures a + (b + c + d) + e == (a + b) + c + (d + e)
  {
  }

  /** The marker of an embedded url reads its id and whatever identifier characters follow it. */
  lemma EmbeddedMarker(before: string, accessUrl: string, id: string, after: string)
    requires IsIdText(id)
    ensures Captured(before + MarkdownUrl(accessUrl, id) + after, |before| + |accessUrl|)
         == Some(id + after[..RunEnd(after, 0)])
  {
    hide Captured;
    hide RunEnd;
    var q := id + after;
    Regroup(before, accessUrl, "#" + MARKER_NAME, id, after);
    assert q[0] == id[0] && id[0] in id;
    assert "#" == ['#'];
    MarkerJoin(before + accessUrl, '#', q);
    RunEndThrough(id, after, 0);
    assert q[..|id| + RunEnd(after, 0)] == id + after[..RunEnd(after, 0)];
  }

  /** Text that embeds a file's markdown url followed by a non-id character yields that
      file's id, whatever surrounds it; followed by an id character, the marker reads a
      different id. */
  lemma EmbeddedIdFound(before: string, accessUrl: string, id: string, after: string)
    requires IsIdText(id)
    ensures
      var text := before + MarkdownUrl(accessUrl, id) + after;
      && (after == [] || !IsIdChar(after[0]) ==> id in ExtractFileIds(text))
      && (Captured(text, |before| + |accessUrl|) == Some(id) <==> after == [] || !IsIdChar(after[0]))
  {
    var text := before + MarkdownUrl(accessUrl, id) + after;
    EmbeddedMarker(before, accessUrl, id, after);
    ExtractIsAllMarkers(text, id);
    var r := RunEnd(after, 0);
    assert |id + after[..r]| == |id| + r;
    if r == 0 { assert id + after[..r] == id; }
  }
}
