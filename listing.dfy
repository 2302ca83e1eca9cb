/**
 * The attendance listing (`/show davomat`, or `/davomat` with no text): one line per report,
 * newest first, packed into messages of at most 4000 UTF-16 code units without ever cutting
 * a line in two.
 */
module Listing {
  import opened Text
  import opened Store

  const Title: string := "📋 Davomat:"
  const Header: string := Title + "\n\n"
  const MaxLen: nat := 4000

  // ---------------------------------------------------------------- the lines

  /** The names of one report's absentees, in the order their rows come. */
  function NamesOf(rows: seq<Absent>, id: nat): (r: seq<string>)
    ensures |r| <= |rows|
  {
    if rows == [] then []
    else NamesOf(rows[..|rows| - 1], id) + (if rows[|rows| - 1].reportId == id then [rows[|rows| - 1].name] else [])
  }

  /**
   * The `byDavomat` dictionary: every report id that has absentee rows, mapped to their names
   * in row order.
   */
  method GroupByReport(rows: seq<Absent>) returns (byReport: map<nat, seq<string>>)
    ensures forall id :: id in byReport <==> NamesOf(rows, id) != []
    ensures forall id :: id in byReport ==> byReport[id] == NamesOf(rows, id)
  {
    byReport := map[];
    var i := 0;
    while i < |rows|
      invariant 0 <= i <= |rows|
      invariant forall id :: id in byReport <==> NamesOf(rows[..i], id) != []
      invariant forall id :: id in byReport ==> byReport[id] == NamesOf(rows[..i], id)
    {
      var k := rows[i];
      assert rows[..i + 1][..i] == rows[..i];
      if k.reportId !in byReport {
        byReport := byReport[k.reportId := []];
      }
      byReport := byReport[k.reportId := byReport[k.reportId] + [k.name]];
      i := i + 1;
    }
    assert rows[..i] == rows;
  }

  lemma NamesOfAppend(rows: seq<Absent>, id: nat, names: seq<string>)
    ensures NamesOf(rows + AbsentRows(id, names), id) == NamesOf(rows, id) + names
  {
    NamesOfConcat(rows, AbsentRows(id, names), id);
    NamesOfOwnRows(id, names);
  }

  /** The names of rows written one after the other are the names of each part, in order. */
  lemma {:induction false} NamesOfConcat(a: seq<Absent>, b: seq<Absent>, id: nat)
    ensures NamesOf(a + b, id) == NamesOf(a, id) + NamesOf(b, id)
    decreases |b|
  {
    if b == [] {
      assert a + b == a;
    } else {
      var init := b[..|b| - 1];
      var last := b[|b| - 1];
      assert a + b == (a + init) + [last];
      NamesOfSnoc(a + init, last, id);
      NamesOfConcat(a, init, id);
    }
  }

  lemma NamesOfSnoc(rows: seq<Absent>, a: Absent, id: nat)
    ensures NamesOf(rows + [a], id) == NamesOf(rows, id) + (if a.reportId == id then [a.name] else [])
  {
    assert (rows + [a])[..|rows|] == rows;
  }

  /** The rows written for one report's names give those names back. */
  lemma {:induction false} NamesOfOwnRows(id: nat, names: seq<string>)
    ensures NamesOf(AbsentRows(id, names), id) == names
  {
    if names != [] {
      var first := Absent(id, names[0]);
      assert AbsentRows(id, names) == [first] + AbsentRows(id, names[1..]);
      NamesOfConcat([first], AbsentRows(id, names[1..]), id);
      NamesOfSnoc([], first, id);
      assert [first] == [] + [first];
      NamesOfOwnRows(id, names[1..]);
    }
  }

  lemma {:induction false} NamesOfNone(rows: seq<Absent>, id: nat)
    requires forall i :: 0 <= i < |rows| ==> rows[i].reportId != id
    ensures NamesOf(rows, id) == []
  {
    if rows != [] {
      NamesOfNone(rows[..|rows| - 1], id);
    }
  }

  /**
   * The absentee rows of a new report under a fresh id are found again, in the order they
   * were written, when the listing groups rows by report.
   */
  lemma NamesOfNewReport(rows: seq<Absent>, id: nat, names: seq<string>)
    requires forall i :: 0 <= i < |rows| ==> rows[i].reportId < id
    ensures NamesOf(rows + AbsentRows(id, names), id) == names
  {
    NamesOfNone(rows, id);
    NamesOfAppend(rows, id, names);
  }

  /** One report as the listing shows it: `sana | sinf | kelgan/jami`, then the absentees if any. */
  function RenderLine(r: Report, names: seq<string>): string {
    var kel := Join(names, ", ");
    r.date + " | " + r.sinf + " | " + NatToString(r.kelgan) + "/" + NatToString(r.jami)
    + (if kel != [] then " | Kelmagan: " + kel else "")
  }

  /** A stored report with its absentees, rendered. */
  function ReportLine(absentees: seq<Absent>, r: Report): string {
    RenderLine(r, NamesOf(absentees, r.id))
  }

  /** The rendered lines of the stored reports, newest first. */
  function ReportLines(reports: seq<Report>, absentees: seq<Absent>): seq<string> {
    seq(|reports|, k requires 0 <= k < |reports| => ReportLine(absentees, reports[|reports| - 1 - k]))
  }

  lemma ReportLinesAt(reports: seq<Report>, absentees: seq<Absent>, k: nat)
    requires k < |reports|
    ensures |ReportLines(reports, absentees)| == |reports|
    ensures ReportLines(reports, absentees)[k] == ReportLine(absentees, reports[|reports| - 1 - k])
  {
  }

  /**
   * Saving a report under a fresh id, with its absentee rows, puts its line at the top of
   * the listing, showing exactly those names, and leaves every other line as it was.
   */
  lemma ReportLinesAfterSave(reports: seq<Report>, absentees: seq<Absent>, r: Report, names: seq<string>)
    requires forall i :: 0 <= i < |reports| ==> reports[i].id < r.id
    requires forall i :: 0 <= i < |absentees| ==> absentees[i].reportId < r.id
    ensures ReportLines(reports + [r], absentees + AbsentRows(r.id, names))
         == [RenderLine(r, names)] + ReportLines(reports, absentees)
  {
    var a := ReportLines(reports + [r], absentees + AbsentRows(r.id, names));
    var b := [RenderLine(r, names)] + ReportLines(reports, absentees);
    NewestLineFirst(reports, absentees, r, names);
    ReportLinesLength(reports, absentees);
    forall k | 1 <= k < |a|
      ensures a[k] == b[k]
    {
      OlderLineKept(reports, absentees, r, names, k);
    }
  }

  lemma ReportLinesLength(reports: seq<Report>, absentees: seq<Absent>)
    ensures |ReportLines(reports, absentees)| == |reports|
  {
  }

  lemma NewestLineFirst(reports: seq<Report>, absentees: seq<Absent>, r: Report, names: seq<string>)
    requires forall i :: 0 <= i < |absentees| ==> absentees[i].reportId < r.id
    ensures |ReportLines(reports + [r], absentees + AbsentRows(r.id, names))| == |reports| + 1
    ensures ReportLines(reports + [r], absentees + AbsentRows(r.id, names))[0] == RenderLine(r, names)
  {
    NamesOfNewReport(absentees, r.id, names);
    ReportLinesAt(reports + [r], absentees + AbsentRows(r.id, names), 0);
  }

  lemma OlderLineKept(reports: seq<Report>, absentees: seq<Absent>, r: Report, names: seq<string>, k: nat)
    requires 1 <= k <= |reports| && reports[|reports| - k].id < r.id
    ensures |ReportLines(reports + [r], absentees + AbsentRows(r.id, names))| == |reports| + 1
    ensures ReportLines(reports + [r], absentees + AbsentRows(r.id, names))[k] == ReportLines(reports, absentees)[k - 1]
  {
    ReportLinesAt(reports + [r], absentees + AbsentRows(r.id, names), k);
    ReportLinesAt(reports, absentees, k - 1);
    var q := reports[|reports| - k];
    assert (reports + [r])[|reports| - k] == q;
    NamesOfOtherReport(absentees, r.id, names, q.id);
  }

  /** The rows of one report leave the names of every other report as they were. */
  lemma NamesOfOtherReport(rows: seq<Absent>, id: nat, names: seq<string>, other: nat)
    requires other != id
    ensures NamesOf(rows + AbsentRows(id, names), other) == NamesOf(rows, other)
  {
    NamesOfConcat(rows, AbsentRows(id, names), other);
    NamesOfNone(AbsentRows(id, names), other);
    assert NamesOf(rows, other) + [] == NamesOf(rows, other);
  }

  /** Rows holding trimmed names give trimmed names for every report. */
  lemma {:induction false} NamesOfTrimmed(rows: seq<Absent>, id: nat)
    requires forall i :: 0 <= i < |rows| ==> Trimmed(rows[i].name)
    ensures forall i :: 0 <= i < |NamesOf(rows, id)| ==> Trimmed(NamesOf(rows, id)[i])
  {
    if rows != [] {
      NamesOfTrimmed(rows[..|rows| - 1], id);
    }
  }

  /**
   * A report whose date starts with a visible character and whose absentees are trimmed
   * names renders as a trimmed line, so `trim()` on a message never eats into a line.
   */
  lemma RenderLineTrimmed(r: Report, names: seq<string>)
    requires r.date != [] && !IsSpace(r.date[0])
    requires forall i :: 0 <= i < |names| ==> Trimmed(names[i])
    ensures Trimmed(RenderLine(r, names))
  {
    var kel := Join(names, ", ");
    var jami := NatToString(r.jami);
    if names != [] {
      assert Trimmed(names[0]) && Trimmed(names[|names| - 1]);
      JoinTrimmed(names, ", ");
    } else {
      assert IsDigit(jami[|jami| - 1]);
    }
  }

  // ---------------------------------------------------------------- packing into messages

  /** The text when it fits into one message. */
  function Full(lines: seq<string>): string {
    Header + Join(lines, "\n")
  }

  /** Each line followed by a newline, as the `cur` buffer accumulates them. */
  function Terminated(block: seq<string>): string {
    if block == [] then [] else block[0] + "\n" + Terminated(block[1..])
  }

  /** The `cur` buffer: a head (the header, for the first buffer) and a block of lines. */
  function Buffer(head: string, block: seq<string>): string {
    head + Terminated(block)
  }

  function Flatten(bs: seq<seq<string>>): seq<string> {
    if bs == [] then [] else bs[0] + Flatten(bs[1..])
  }

  /**
   * The blocks of lines the packing loop sends, starting at line `i` with `head` and `block`
   * already in the buffer: a line that would take the buffer past the limit starts a new
   * block. The blocks hold the lines in order, each exactly once, and only the first may
   * be empty.
   */
  function Blocks(lines: seq<string>, i: nat, head: string, block: seq<string>): (r: seq<seq<string>>)
    requires i <= |lines|
    ensures |r| >= 1 && |r[0]| >= |block|
    ensures Flatten(r) == block + lines[i..]
    ensures forall j :: 1 <= j < |r| ==> r[j] != []
    decreases |lines| - i
  {
    if i == |lines| then
      FlattenCons(block, []);
      [block]
    else if Utf16Len(Buffer(head, block)) + Utf16Len(lines[i]) + 1 > MaxLen then
      var rest := Blocks(lines, i + 1, "", [lines[i]]);
      FlattenCons(block, rest);
      assert lines[i..] == [lines[i]] + lines[i + 1..];
      assert Flatten([block] + rest) == block + ([lines[i]] + lines[i + 1..]);
      [block] + rest
    else
      assert lines[i..] == [lines[i]] + lines[i + 1..];
      Blocks(lines, i + 1, head, block + [lines[i]])
  }

  /** The messages sent for a sequence of blocks: each buffer trimmed; a blank last one is not sent. */
  function Emit(bs: seq<seq<string>>, head: string): seq<string>
    requires |bs| >= 1
  {
    var m := Trim(Buffer(head, bs[0]));
    if |bs| == 1 then (if m != [] then [m] else [])
    else [m] + Emit(bs[1..], "")
  }

  /** How the lines are grouped into messages: all together when the full text fits. */
  function ListingBlocks(lines: seq<string>): (r: seq<seq<string>>)
    ensures |r| >= 1
  {
    if Utf16Len(Full(lines)) <= MaxLen then [lines] else Blocks(lines, 0, Header, [])
  }

  /** The messages `showDavomatList` sends for the rendered lines. */
  function Messages(lines: seq<string>): seq<string> {
    if Utf16Len(Full(lines)) <= MaxLen then [Full(lines)] else Emit(Blocks(lines, 0, Header, []), Header)
  }

  lemma TerminatedOne(line: string)
    ensures Terminated([line]) == line + "\n"
  {
    assert [line][1..] == [];
  }

  lemma FlattenCons(b: seq<string>, rest: seq<seq<string>>)
    ensures Flatten([b] + rest) == b + Flatten(rest)
  {
    assert ([b] + rest)[1..] == rest;
  }

  lemma {:induction false} TerminatedAppend(block: seq<string>, line: string)
    ensures Terminated(block + [line]) == Terminated(block) + line + "\n"
  {
    if block != [] {
      assert (block + [line])[1..] == block[1..] + [line];
      TerminatedAppend(block[1..], line);
    } else {
      TerminatedOne(line);
    }
  }

  /** A line that would overflow the buffer: the buffer is sent and the line starts the next one. */
  lemma StepFlush(lines: seq<string>, i: nat, head: string, block: seq<string>)
    requires i < |lines| && Utf16Len(Buffer(head, block)) + Utf16Len(lines[i]) + 1 > MaxLen
    ensures Emit(Blocks(lines, i, head, block), head)
      == [Trim(Buffer(head, block))] + Emit(Blocks(lines, i + 1, "", [lines[i]]), "")
    ensures Buffer("", [lines[i]]) == lines[i] + "\n"
  {
    var rest := Blocks(lines, i + 1, "", [lines[i]]);
    assert Blocks(lines, i, head, block) == [block] + rest;
    assert ([block] + rest)[1..] == rest;
    TerminatedOne(lines[i]);
  }

  /** A line that fits: it joins the buffer. */
  lemma StepGrow(lines: seq<string>, i: nat, head: string, block: seq<string>)
    requires i < |lines| && Utf16Len(Buffer(head, block)) + Utf16Len(lines[i]) + 1 <= MaxLen
    ensures Blocks(lines, i, head, block) == Blocks(lines, i + 1, head, block + [lines[i]])
    ensures Buffer(head, block + [lines[i]]) == Buffer(head, block) + lines[i] + "\n"
  {
    BufferGrow(head, block, lines[i]);
  }

  lemma BufferGrow(head: string, block: seq<string>, line: string)
    ensures Buffer(head, block + [line]) == Buffer(head, block) + line + "\n"
  {
    TerminatedAppend(block, line);
  }

  /** After the last line the buffer is sent unless it trims to nothing. */
  lemma StepLast(lines: seq<string>, head: string, block: seq<string>)
    ensures var m := Trim(Buffer(head, block));
      Emit(Blocks(lines, |lines|, head, block), head) == if m != [] then [m] else []
  {
  }

  /**
   * The packing of `showDavomatList`: the full text in one message when it fits, else the
   * packing loop.
   */
  method Pack(lines: seq<string>) returns (msgs: seq<string>)
    ensures msgs == Messages(lines)
  {
    var full := Header + Join(lines, "\n");
    if Utf16Len(full) <= MaxLen {
      msgs := [full];
    } else {
      msgs := PackLoop(lines);
    }
  }

  /** The loop: fills a buffer line by line, sending it (trimmed) before the line that would overflow it. */
  method PackLoop(lines: seq<string>) returns (msgs: seq<string>)
    ensures msgs == Emit(Blocks(lines, 0, Header, []), Header)
  {
    var cur := Header;
    msgs := [];
    ghost var head := Header;
    ghost var block: seq<string> := [];
    ghost var goal := Emit(Blocks(lines, 0, Header, []), Header);
    var i := 0;
    while i < |lines|
      invariant 0 <= i <= |lines|
      invariant cur == Buffer(head, block)
      invariant msgs + Emit(Blocks(lines, i, head, block), head) == goal
    {
      ghost var before := Emit(Blocks(lines, i, head, block), head);
      var sent;
      sent, cur, head, block := Feed(lines, i, cur, head, block);
      assert msgs + (sent + Emit(Blocks(lines, i + 1, head, block), head)) == msgs + before;
      msgs := msgs + sent;
      i := i + 1;
    }
    StepLast(lines, head, block);
    var last := Trim(cur);
    if last != [] {
      msgs := msgs + [last];
    }
  }

  /** One turn of the loop: the buffer `cur` (the blocks so far) meets line `i`. */
  method Feed(lines: seq<string>, i: nat, cur: string, ghost head: string, ghost block: seq<string>)
    returns (sent: seq<string>, cur': string, ghost head': string, ghost block': seq<string>)
    requires i < |lines| && cur == Buffer(head, block)
    ensures cur' == Buffer(head', block')
    ensures sent + Emit(Blocks(lines, i + 1, head', block'), head') == Emit(Blocks(lines, i, head, block), head)
    ensures |sent| <= 1
  {
    var line := lines[i];
    if Utf16Len(cur) + Utf16Len(line) + 1 > MaxLen {
      StepFlush(lines, i, head, block);
      sent := [Trim(cur)];
      cur' := line + "\n";
      head' := "";
      block' := [line];
    } else {
      StepGrow(lines, i, head, block);
      sent := [];
      cur' := cur + line + "\n";
      head' := head;
      block' := block + [line];
    }
  }

  // ---------------------------------------------------------------- what the messages hold

  lemma {:induction false} Utf16LenSlice(s: string, i: nat, j: nat)
    requires i <= j <= |s|
    ensures Utf16Len(s[i..j]) <= Utf16Len(s)
  {
    assert s == s[..i] + s[i..j] + s[j..];
    Utf16LenAppend(s[..i] + s[i..j], s[j..]);
    Utf16LenAppend(s[..i], s[i..j]);
  }

  lemma TrimShrinks(s: string)
    ensures Utf16Len(Trim(s)) <= Utf16Len(s)
  {
    var a := TrimStart(s);
    var b := TrimEnd(a);
    assert Trim(s) == b;
    assert a == s[|s| - |a|..|s|];
    Utf16LenSlice(s, |s| - |a|, |s|);
    assert b == a[0..|b|];
    Utf16LenSlice(a, 0, |b|);
  }

  lemma HeaderLength()
    ensures Utf16Len(Header) == 13
  {
    assert Header == ['📋'] + " Davomat:\n\n";
    Utf16LenAppend(['📋'], " Davomat:\n\n");
  }

  lemma {:induction false} BlocksBounded(lines: seq<string>, i: nat, head: string, block: seq<string>)
    requires i <= |lines|
    requires forall k :: 0 <= k < |lines| ==> Utf16Len(lines[k]) < MaxLen
    requires Utf16Len(Buffer(head, block)) <= MaxLen
    ensures forall m :: m in Emit(Blocks(lines, i, head, block), head) ==> Utf16Len(m) <= MaxLen
    decreases |lines| - i
  {
    TrimShrinks(Buffer(head, block));
    if i == |lines| {
    } else if Utf16Len(Buffer(head, block)) + Utf16Len(lines[i]) + 1 > MaxLen {
      StepFlush(lines, i, head, block);
      Utf16LenAppend(lines[i], "\n");
      BlocksBounded(lines, i + 1, "", [lines[i]]);
    } else {
      StepGrow(lines, i, head, block);
      Utf16LenAppend(Buffer(head, block) + lines[i], "\n");
      Utf16LenAppend(Buffer(head, block), lines[i]);
      BlocksBounded(lines, i + 1, head, block + [lines[i]]);
    }
  }

  /** When no report line reaches 4000 code units on its own, no message exceeds 4000. */
  lemma MessagesBounded(lines: seq<string>)
    requires forall k :: 0 <= k < |lines| ==> Utf16Len(lines[k]) < MaxLen
    ensures forall m :: m in Messages(lines) ==> Utf16Len(m) <= MaxLen
  {
    if Utf16Len(Full(lines)) > MaxLen {
      HeaderLength();
      assert Buffer(Header, []) == Header;
      BlocksBounded(lines, 0, Header, []);
    }
  }

  /** What the listing relies on: every report carries the clock's ISO date, every absentee row a trimmed name. */
  predicate Listable(reports: seq<Report>, absentees: seq<Absent>) {
    && (forall i :: 0 <= i < |reports| ==> IsoDate(reports[i].date))
    && (forall i :: 0 <= i < |absentees| ==> Trimmed(absentees[i].name))
  }

  /** A report dated by the clock keeps the rows listable. */
  lemma ListableAddReport(reports: seq<Report>, absentees: seq<Absent>, r: Report)
    requires Listable(reports, absentees) && IsoDate(r.date)
    ensures Listable(reports + [r], absentees)
  {
  }

  /** Absentee rows written from parsed (trimmed) names keep the rows listable. */
  lemma ListableAddRows(reports: seq<Report>, absentees: seq<Absent>, id: nat, names: seq<string>)
    requires Listable(reports, absentees)
    requires forall i :: 0 <= i < |names| ==> Trimmed(names[i])
    ensures Listable(reports, absentees + AbsentRows(id, names))
  {
    var rows := absentees + AbsentRows(id, names);
    forall i | 0 <= i < |rows|
      ensures Trimmed(rows[i].name)
    {
      if i >= |absentees| {
        assert rows[i] == AbsentRows(id, names)[i - |absentees|];
      }
    }
  }

  /**
   * The listing of listable stored reports: every report's line once, newest first, none cut
   * in two, and no message over 4000 code units while no single line reaches that length.
   */
  lemma StoredListing(reports: seq<Report>, absentees: seq<Absent>)
    requires reports != [] && Listable(reports, absentees)
    ensures var lines := ReportLines(reports, absentees); var bs := ListingBlocks(lines);
      && Flatten(bs) == lines
      && (forall j :: 1 <= j < |bs| ==> bs[j] != [])
      && Messages(lines) == Shown(bs, Header)
      && ((forall k :: 0 <= k < |lines| ==> Utf16Len(lines[k]) < MaxLen) ==>
            forall m :: m in Messages(lines) ==> Utf16Len(m) <= MaxLen)
  {
    var lines := ReportLines(reports, absentees);
    forall l | l in lines
      ensures Trimmed(l)
    {
      var k :| 0 <= k < |lines| && lines[k] == l;
      var r := reports[|reports| - 1 - k];
      NamesOfTrimmed(absentees, r.id);
      RenderLineTrimmed(r, NamesOf(absentees, r.id));
    }
    ListingShowsEveryLine(lines);
    if forall k :: 0 <= k < |lines| ==> Utf16Len(lines[k]) < MaxLen {
      MessagesBounded(lines);
    }
  }

  /** A message as it reads: the header and the block's lines, or the bare title for an empty first block. */
  function Body(head: string, block: seq<string>): string {
    if head == Header && block == [] then Title else head + Join(block, "\n")
  }

  /** The texts of the messages for a sequence of blocks. */
  function Shown(bs: seq<seq<string>>, head: string): seq<string> {
    if bs == [] then [] else [Body(head, bs[0])] + Shown(bs[1..], "")
  }

  lemma {:induction false} TerminatedJoin(block: seq<string>)
    requires block != []
    ensures Terminated(block) == Join(block, "\n") + "\n"
  {
    if |block| > 1 {
      TerminatedJoin(block[1..]);
    } else {
      TerminatedOne(block[0]);
      assert block == [block[0]];
    }
  }

  lemma TrimBuffer(head: string, block: seq<string>)
    requires forall l :: l in block ==> Trimmed(l)
    requires head == Header || (head == "" && block != [])
    ensures Trim(Buffer(head, block)) == Body(head, block)
  {
    assert Title[0] == '📋';
    if block == [] {
      assert Buffer(head, block) == Title + "\n\n";
      TrimEndSpaces(Title, "\n\n");
      TrimStartNoop(Title);
    } else {
      TerminatedJoin(block);
      var j := Join(block, "\n");
      assert block[0] in block && block[|block| - 1] in block;
      JoinTrimmed(block, "\n");
      var body := head + j;
      assert Buffer(head, block) == body + "\n";
      TrimEndSpaces(body, "\n");
      assert body[0] == (if head == Header then '📋' else j[0]);
      TrimStartNoop(body);
    }
  }

  lemma {:induction false} EmitShown(bs: seq<seq<string>>, head: string)
    requires |bs| >= 1 && (head == Header || (head == "" && bs[0] != []))
    requires forall j :: 1 <= j < |bs| ==> bs[j] != []
    requires forall j, l :: 0 <= j < |bs| && l in bs[j] ==> Trimmed(l)
    ensures Emit(bs, head) == Shown(bs, head)
  {
    TrimBuffer(head, bs[0]);
    if |bs| > 1 {
      EmitShown(bs[1..], "");
    } else {
      assert Shown(bs[1..], "") == [];
      if head == Header && bs[0] == [] {
        assert Body(head, bs[0]) == Title;
      } else if head == Header {
        assert Body(head, bs[0])[0] == '📋';
      } else {
        assert bs[0][0] in bs[0] && bs[0][|bs[0]| - 1] in bs[0];
        JoinTrimmed(bs[0], "\n");
      }
    }
  }

  lemma {:induction false} FlattenHas(bs: seq<seq<string>>, j: nat, l: string)
    requires j < |bs| && l in bs[j]
    ensures l in Flatten(bs)
  {
    if j > 0 {
      FlattenHas(bs[1..], j - 1, l);
    }
  }

  /**
   * With trimmed report lines, the messages are exactly the blocks of `ListingBlocks` written
   * out: the first under the header, the lines of each block joined by newlines. The blocks
   * hold every line once, in order, none cut in two, and the full text goes out whole
   * whenever it fits.
   */
  lemma ListingShowsEveryLine(lines: seq<string>)
    requires lines != [] && forall l :: l in lines ==> Trimmed(l)
    ensures var bs := ListingBlocks(lines);
      && Flatten(bs) == lines
      && (forall j :: 1 <= j < |bs| ==> bs[j] != [])
      && Messages(lines) == Shown(bs, Header)
      && (Utf16Len(Full(lines)) <= MaxLen ==> |Messages(lines)| == 1)
  {
    var bs := ListingBlocks(lines);
    if Utf16Len(Full(lines)) <= MaxLen {
      FlattenCons(lines, []);
    } else {
      assert lines[0..] == lines;
      forall j, l | 0 <= j < |bs| && l in bs[j]
        ensures Trimmed(l)
      {
        FlattenHas(bs, j, l);
      }
      EmitShown(bs, Header);
    }
  }
}
