/**
 * The data shaping the PDF report does before drawing: grouping the open
 * results by host, and the greedy word wrap of long descriptions.
 */
module Report {
  import opened Strings
  import opened Types
  import PortScanner

  // ---------------------------------------------------------------------------
  // Grouping by host
  // ---------------------------------------------------------------------------

  /** The open results of host `ip`, in input order. */
  function OpenAt(results: seq<ScanResult>, ip: string): (group: seq<ScanResult>)
    ensures |group| <= |results|
    ensures forall k :: 0 <= k < |group| ==> group[k].state == PortScanner.OPEN && group[k].ip == ip
  {
    if results == [] then []
    else
      var init := OpenAt(results[..|results| - 1], ip);
      var r := results[|results| - 1];
      if r.state == PortScanner.OPEN && r.ip == ip then init + [r] else init
  }

  /**
   * The `ipMap` loop of `generatePDFReport`: a host is a key exactly when it
   * has an open result, and its group holds its open results in input order.
   */
  method GroupByIP(results: seq<ScanResult>) returns (ipMap: map<string, seq<ScanResult>>)
    ensures forall ip :: ip in ipMap <==> OpenAt(results, ip) != []
    ensures forall ip :: ip in ipMap ==> ipMap[ip] == OpenAt(results, ip)
  {
    ipMap := map[];
    for i := 0 to |results|
      invariant forall ip :: ip in ipMap <==> OpenAt(results[..i], ip) != []
      invariant forall ip :: ip in ipMap ==> ipMap[ip] == OpenAt(results[..i], ip)
    {
      var result := results[i];
      assert results[..i + 1][..i] == results[..i];
      if result.state == PortScanner.OPEN {
        var group := if result.ip in ipMap then ipMap[result.ip] else [];
        ipMap := ipMap[result.ip := group + [result]];
      }
    }
    assert results[..|results|] == results;
  }

  /** Grouping keeps order: the group of a concatenation is the concatenation of the groups. */
  lemma {:induction false} OpenAtAppend(a: seq<ScanResult>, b: seq<ScanResult>, ip: string)
    ensures OpenAt(a + b, ip) == OpenAt(a, ip) + OpenAt(b, ip)
    decreases |b|
  {
    if b == [] {
      assert a + b == a;
    } else {
      OpenAtAppend(a, b[..|b| - 1], ip);
      assert (a + b)[..|a + b| - 1] == a + b[..|b| - 1];
    }
  }

  /**
   * Every open result lands in its host's group as often as it occurs in the
   * input, and a result that is not open lands in no group.
   */
  lemma {:induction false} OpenAtMultiplicity(results: seq<ScanResult>, ip: string, r: ScanResult)
    ensures multiset(OpenAt(results, ip))[r] ==
      if r.state == PortScanner.OPEN && r.ip == ip then multiset(results)[r] else 0
    decreases |results|
  {
    if results != [] {
      var init := results[..|results| - 1];
      var last := results[|results| - 1];
      OpenAtMultiplicity(init, ip, r);
      assert results == init + [last];
      assert multiset(results)[r] == multiset(init)[r] + (if last == r then 1 else 0);
    }
  }

  // ---------------------------------------------------------------------------
  // Word wrap
  // ---------------------------------------------------------------------------

  /** The words of each line, in order, concatenated. */
  function FieldsOfLines(lines: seq<string>): seq<string> {
    if lines == [] then [] else FieldsOfLines(lines[..|lines| - 1]) + Fields(lines[|lines| - 1])
  }

  /**
   * A line break the greedy wrap could not avoid: adding the first word of
   * `next` to `line` makes it wider than the limit, or `line` is one word
   * that is already wider than the limit by itself.
   */
  predicate ForcedBreak(line: string, next: string, width: real, stringWidth: string -> real) {
    && Fields(next) != []
    && (stringWidth(line + " " + Fields(next)[0]) > width
        || (|Fields(line)| == 1 && stringWidth(line) > width))
  }

  /**
   * `splitLongText`, with the font metric `pdf.GetStringWidth` given as
   * `stringWidth`: the words of `text` are laid out greedily, in order, on
   * single-spaced lines, and every line of two or more words is no wider than
   * `width`. A single word may be wider than `width`; it is never cut.
   */
  method SplitLongText(stringWidth: string -> real, text: string, width: real) returns (lines: seq<string>)
    ensures FieldsOfLines(lines) == Fields(text)
    ensures forall k :: 0 <= k < |lines| ==>
      lines[k] != "" && lines[k] == Join(Fields(lines[k]), ' ')
    ensures forall k :: 0 <= k < |lines| && |Fields(lines[k])| >= 2 ==> stringWidth(lines[k]) <= width
    ensures forall k :: 0 <= k < |lines| - 1 ==> ForcedBreak(lines[k], lines[k + 1], width, stringWidth)
    ensures |lines| <= |Fields(text)|
    ensures lines == [] <==> AllSpace(text)
  {
    var words := Fields(text);
    lines := [];
    var currentLine := "";
    ghost var groups: seq<seq<string>> := [];
    ghost var current: seq<string> := [];
    for i := 0 to |words|
      invariant Wrapping(words[..i], groups, current, lines, currentLine, width, stringWidth)
    {
      lines, currentLine, groups, current :=
        PlaceWord(stringWidth, width, lines, currentLine, words, i, groups, current);
    }
    assert words[..|words|] == words;
    if currentLine != "" {
      Close(words, groups, current, lines, currentLine, width, stringWidth);
      lines := lines + [currentLine];
      groups := groups + [current];
    }
    WrappedLines(text, groups, lines, width, stringWidth);
  }

  /** One pass of the loop of `splitLongText`: the word `words[i]` is placed. */
  method PlaceWord(stringWidth: string -> real, width: real, lines: seq<string>, currentLine: string,
                   words: seq<string>, i: int, ghost groups: seq<seq<string>>, ghost current: seq<string>)
    returns (lines': seq<string>, currentLine': string, ghost groups': seq<seq<string>>, ghost current': seq<string>)
    requires 0 <= i < |words| && IsWord(words[i])
    requires Wrapping(words[..i], groups, current, lines, currentLine, width, stringWidth)
    ensures Wrapping(words[..i + 1], groups', current', lines', currentLine', width, stringWidth)
  {
    var word := words[i];
    var testLine := currentLine;
    if testLine != "" {
      testLine := testLine + " ";
    }
    testLine := testLine + word;
    var lineWidth := stringWidth(testLine);
    if lineWidth > width {
      if currentLine != "" {
        PushCurrent(words, i, groups, current, lines, currentLine, testLine, width, stringWidth);
        lines' := lines + [currentLine];
        currentLine' := word;
        groups' := groups + [current];
        current' := [word];
      } else {
        PushAlone(words, i, groups, current, lines, currentLine, testLine, width, stringWidth);
        lines' := lines + [word];
        currentLine' := "";
        groups' := groups + [[word]];
        current' := [];
      }
    } else {
      Extend(words, i, groups, current, lines, currentLine, testLine, width, stringWidth);
      lines' := lines;
      currentLine' := testLine;
      groups' := groups;
      current' := current + [word];
    }
  }

  /** The words of each group, concatenated. */
  ghost function Flatten(groups: seq<seq<string>>): seq<string> {
    if groups == [] then [] else Flatten(groups[..|groups| - 1]) + groups[|groups| - 1]
  }

  /** Each group of words joined by single spaces. */
  ghost function JoinLines(groups: seq<seq<string>>): (lines: seq<string>)
    ensures |lines| == |groups|
  {
    if groups == [] then [] else JoinLines(groups[..|groups| - 1]) + [Join(groups[|groups| - 1], ' ')]
  }

  ghost predicate AllWords(words: seq<string>) {
    forall j :: 0 <= j < |words| ==> IsWord(words[j])
  }

  ghost predicate GroupBreak(group: seq<string>, next: string, width: real, stringWidth: string -> real) {
    stringWidth(Join(group, ' ') + " " + next) > width || (|group| == 1 && stringWidth(group[0]) > width)
  }

  /**
   * The word groups the wrap has closed so far: each a non-empty list of
   * words, each of two or more words within the limit, and each break
   * between two of them forced.
   */
  ghost predicate WrappedGroups(groups: seq<seq<string>>, width: real, stringWidth: string -> real)
    decreases |groups|
  {
    groups == [] ||
    var init, last := groups[..|groups| - 1], groups[|groups| - 1];
    && WrappedGroups(init, width, stringWidth)
    && last != [] && AllWords(last)
    && (|last| >= 2 ==> stringWidth(Join(last, ' ')) <= width)
    && (init != [] ==> GroupBreak(init[|init| - 1], last[0], width, stringWidth))
  }

  /**
   * The loop invariant of the wrap after the words `done`: the closed groups
   * and the current group hold those words in order, `lines` and
   * `currentLine` are them joined, and the break before the current group
   * is forced.
   */
  ghost predicate Wrapping(done: seq<string>, groups: seq<seq<string>>, current: seq<string>,
                           lines: seq<string>, currentLine: string, width: real, stringWidth: string -> real)
  {
    && Flatten(groups) + current == done
    && lines == JoinLines(groups)
    && currentLine == Join(current, ' ')
    && (currentLine == "" <==> current == [])
    && AllWords(current)
    && (|current| >= 2 ==> stringWidth(currentLine) <= width)
    && WrappedGroups(groups, width, stringWidth)
    && (groups != [] && current != [] ==> GroupBreak(groups[|groups| - 1], current[0], width, stringWidth))
    && (groups != [] && current == [] ==>
          |groups[|groups| - 1]| == 1 && stringWidth(groups[|groups| - 1][0]) > width)
  }

  lemma GroupsSnoc(groups: seq<seq<string>>, g: seq<string>)
    ensures (groups + [g])[..|groups|] == groups
    ensures Flatten(groups + [g]) == Flatten(groups) + g
    ensures JoinLines(groups + [g]) == JoinLines(groups) + [Join(g, ' ')]
  {
    assert (groups + [g])[..|groups|] == groups;
  }

  /** The line the next word is tried on: the current line's words and that word, joined. */
  lemma NextLine(done: seq<string>, groups: seq<seq<string>>, current: seq<string>,
                 lines: seq<string>, currentLine: string, word: string, width: real, stringWidth: string -> real)
    requires Wrapping(done, groups, current, lines, currentLine, width, stringWidth)
    ensures currentLine != "" <==> current != []
    ensures (if currentLine != "" then currentLine + " " else currentLine) + word == Join(current + [word], ' ')
  {
    if current != [] {
      JoinAppend(current, word, ' ');
    } else {
      assert current + [word] == [word];
    }
  }

  /** The next word does not fit: the current line is closed and the word starts the next one. */
  lemma PushCurrent(words: seq<string>, i: int, groups: seq<seq<string>>, current: seq<string>,
                    lines: seq<string>, currentLine: string, testLine: string, width: real, stringWidth: string -> real)
    requires 0 <= i < |words| && IsWord(words[i])
    requires Wrapping(words[..i], groups, current, lines, currentLine, width, stringWidth)
    requires testLine == (if currentLine != "" then currentLine + " " else currentLine) + words[i]
    requires currentLine != "" && stringWidth(testLine) > width
    ensures Wrapping(words[..i + 1], groups + [current], [words[i]], lines + [currentLine], words[i],
                     width, stringWidth)
  {
    var word := words[i];
    assert words[..i + 1] == words[..i] + [word];
    NextLine(words[..i], groups, current, lines, currentLine, word, width, stringWidth);
    GroupsSnoc(groups, current);
  }

  /** Nothing is pending and the word alone is too wide: it gets a line of its own. */
  lemma PushAlone(words: seq<string>, i: int, groups: seq<seq<string>>, current: seq<string>,
                  lines: seq<string>, currentLine: string, testLine: string, width: real, stringWidth: string -> real)
    requires 0 <= i < |words| && IsWord(words[i])
    requires Wrapping(words[..i], groups, current, lines, currentLine, width, stringWidth)
    requires testLine == (if currentLine != "" then currentLine + " " else currentLine) + words[i]
    requires currentLine == "" && stringWidth(testLine) > width
    ensures Wrapping(words[..i + 1], groups + [[words[i]]], [], lines + [words[i]], "", width, stringWidth)
  {
    var word := words[i];
    assert words[..i + 1] == words[..i] + [word];
    NextLine(words[..i], groups, current, lines, currentLine, word, width, stringWidth);
    assert testLine == word;
    GroupsSnoc(groups, [word]);
  }

  /** The word fits: it joins the current line. */
  lemma Extend(words: seq<string>, i: int, groups: seq<seq<string>>, current: seq<string>,
               lines: seq<string>, currentLine: string, testLine: string, width: real, stringWidth: string -> real)
    requires 0 <= i < |words| && IsWord(words[i])
    requires Wrapping(words[..i], groups, current, lines, currentLine, width, stringWidth)
    requires testLine == (if currentLine != "" then currentLine + " " else currentLine) + words[i]
    requires stringWidth(testLine) <= width
    ensures Wrapping(words[..i + 1], groups, current + [words[i]], lines, testLine, width, stringWidth)
  {
    var word := words[i];
    assert words[..i + 1] == words[..i] + [word];
    NextLine(words[..i], groups, current, lines, currentLine, word, width, stringWidth);
    JoinNonEmpty(current + [word], ' ');
  }

  /** At the end the pending line is closed. */
  lemma Close(done: seq<string>, groups: seq<seq<string>>, current: seq<string>,
              lines: seq<string>, currentLine: string, width: real, stringWidth: string -> real)
    requires Wrapping(done, groups, current, lines, currentLine, width, stringWidth)
    requires current != []
    ensures Flatten(groups + [current]) == done
    ensures lines + [currentLine] == JoinLines(groups + [current])
    ensures WrappedGroups(groups + [current], width, stringWidth)
  {
    GroupsSnoc(groups, current);
  }

  /** The method's postcondition, from the groups the loop closed. */
  lemma WrappedLines(text: string, groups: seq<seq<string>>, lines: seq<string>,
                     width: real, stringWidth: string -> real)
    requires WrappedGroups(groups, width, stringWidth)
    requires Flatten(groups) == Fields(text)
    requires lines == JoinLines(groups)
    ensures FieldsOfLines(lines) == Fields(text)
    ensures forall k :: 0 <= k < |lines| ==>
      lines[k] != "" && lines[k] == Join(Fields(lines[k]), ' ')
    ensures forall k :: 0 <= k < |lines| && |Fields(lines[k])| >= 2 ==> stringWidth(lines[k]) <= width
    ensures forall k :: 0 <= k < |lines| - 1 ==> ForcedBreak(lines[k], lines[k + 1], width, stringWidth)
    ensures |lines| <= |Fields(text)|
    ensures lines == [] <==> AllSpace(text)
  {
    WrappedGroupsLines(groups, width, stringWidth);
    FieldsEmpty(text);
  }

  /** What the closed groups say about the lines they are joined into. */
  lemma WrappedGroupsLines(groups: seq<seq<string>>, width: real, stringWidth: string -> real)
    requires WrappedGroups(groups, width, stringWidth)
    ensures FieldsOfLines(JoinLines(groups)) == Flatten(groups)
    ensures |groups| <= |Flatten(groups)|
    ensures forall k :: 0 <= k < |groups| ==>
      var line := JoinLines(groups)[k];
      line != "" && line == Join(Fields(line), ' ')
    ensures forall k :: 0 <= k < |groups| && |Fields(JoinLines(groups)[k])| >= 2 ==>
      stringWidth(JoinLines(groups)[k]) <= width
    ensures forall k :: 0 <= k < |groups| - 1 ==>
      ForcedBreak(JoinLines(groups)[k], JoinLines(groups)[k + 1], width, stringWidth)
  {
    GroupsFields(groups, width, stringWidth);
    GroupsLineShape(groups, width, stringWidth);
    GroupsBreaks(groups, width, stringWidth);
  }

  /** The lines hold the groups' words, and there are no more lines than words. */
  lemma {:induction false} GroupsFields(groups: seq<seq<string>>, width: real, stringWidth: string -> real)
    requires WrappedGroups(groups, width, stringWidth)
    ensures FieldsOfLines(JoinLines(groups)) == Flatten(groups)
    ensures |groups| <= |Flatten(groups)|
    decreases |groups|
  {
    if groups != [] {
      var init, last := groups[..|groups| - 1], groups[|groups| - 1];
      GroupsFields(init, width, stringWidth);
      var lines := JoinLines(groups);
      assert lines[..|lines| - 1] == JoinLines(init);
      FieldsOfJoin(last);
    }
  }

  /** Every line is its words joined by single spaces, and a line of two or more words fits. */
  lemma {:induction false} GroupsLineShape(groups: seq<seq<string>>, width: real, stringWidth: string -> real)
    requires WrappedGroups(groups, width, stringWidth)
    ensures forall k :: 0 <= k < |groups| ==>
      var line := JoinLines(groups)[k];
      line != "" && line == Join(Fields(line), ' ')
    ensures forall k :: 0 <= k < |groups| && |Fields(JoinLines(groups)[k])| >= 2 ==>
      stringWidth(JoinLines(groups)[k]) <= width
    decreases |groups|
  {
    if groups != [] {
      var init, last := groups[..|groups| - 1], groups[|groups| - 1];
      GroupsLineShape(init, width, stringWidth);
      assert JoinLines(groups) == JoinLines(init) + [Join(last, ' ')];
      FieldsOfJoin(last);
      JoinNonEmpty(last, ' ');
    }
  }

  /** Every break between two consecutive lines is forced. */
  lemma {:induction false} GroupsBreaks(groups: seq<seq<string>>, width: real, stringWidth: string -> real)
    requires WrappedGroups(groups, width, stringWidth)
    ensures forall k :: 0 <= k < |groups| - 1 ==>
      ForcedBreak(JoinLines(groups)[k], JoinLines(groups)[k + 1], width, stringWidth)
    decreases |groups|
  {
    if groups != [] {
      var init, last := groups[..|groups| - 1], groups[|groups| - 1];
      GroupsBreaks(init, width, stringWidth);
      var lines, before := JoinLines(groups), JoinLines(init);
      assert lines == before + [Join(last, ' ')];
      if init != [] {
        var prev := init[|init| - 1];
        assert before[|init| - 1] == Join(prev, ' ') by {
          assert init[..|init| - 1] + [prev] == init;
        }
        FieldsOfJoin(prev);
        FieldsOfJoin(last);
        assert ForcedBreak(lines[|init| - 1], lines[|init|], width, stringWidth);
      }
    }
  }
}
