/** The attendance-line examples the bot's usage text and its users rely on. */
module AttendanceLineExamples {
  import opened Wrappers
  import opened Text
  import opened AttendanceLine

  lemma Labels()
    ensures IsGroupToken("7-b") && IsGroupToken("5-a")
  {
    assert "7-b"[..1] == "7";
    assert "5-a"[..1] == "5";
  }

  lemma Numbers()
    ensures NatToString(20) == "20" && NatToString(19) == "19"
    ensures NatToString(30) == "30" && NatToString(28) == "28"
    ensures DigitsValue("19") == 19 && DigitsValue("20") == 20
  {
    assert "19"[..1] == "1";
    assert "20"[..1] == "2";
  }

  lemma WrittenOne()
    ensures Line(Parsed("7-b", 20, 19, ["bobur"]), []) == "7-b 20/19 bobur kelmadi"
  {
    Numbers();
  }

  lemma WrittenTwo()
    ensures Line(Parsed("5-a", 30, 28, ["olim", "dilnoza"]), [", "]) == "5-a 30/28 olim, dilnoza kelmadi"
  {
    Numbers();
  }

  lemma WrittenSwapped()
    ensures Line(Parsed("7-b", 19, 20, ["bobur"]), []) == "7-b 19/20 bobur kelmadi"
  {
    Numbers();
  }

  lemma ExampleOneAbsent(t: string)
    requires t == "7-b 20/19 bobur kelmadi"
    ensures ParseDavomat(t) == Some(Parsed("7-b", 20, 19, ["bobur"]))
  {
    Labels();
    WrittenOne();
    ParseLine(Parsed("7-b", 20, 19, ["bobur"]), []);
  }

  /** Two names, one comma: a report with two absent pupils. */
  lemma ExampleTwoAbsent(t: string)
    requires t == "5-a 30/28 olim, dilnoza kelmadi"
    ensures ParseDavomat(t) == Some(Parsed("5-a", 30, 28, ["olim", "dilnoza"]))
  {
    Labels();
    WrittenTwo();
    ParseLine(Parsed("5-a", 30, 28, ["olim", "dilnoza"]), [", "]);
  }

  /** More pupils present than enrolled: refused. */
  lemma ExampleTooManyPresent(t: string)
    requires t == "7-b 19/20 bobur kelmadi"
    ensures ParseDavomat(t) == None
  {
    Labels();
    WrittenSwapped();
    RefuseMorePresent(Parsed("7-b", 19, 20, ["bobur"]), []);
  }

  lemma NoNamesCounts(t: string)
    requires t == "7-b 20/19 kelmadi"
    ensures MatchCounts(t) == Some(Cuts(3, 4, 6, 9))
  {
    assert t[..3] == "7-b" && t[3..4] == " " && t[4..6] == "20" && t[7..9] == "19";
    Labels();
    MatchCountsAt(t, Cuts(3, 4, 6, 9));
  }

  lemma BlankTrim()
    ensures Trim(" ") == ""
  {
    assert IsSpace(' ');
  }

  lemma NoNamesTail(t: string)
    requires t == "7-b 20/19 kelmadi" && CutsFit(t, Cuts(3, 4, 6, 9))
    ensures MatchTail(t, Cuts(3, 4, 6, 9)) == None
  {
    assert t[9..|t| - 7] == " ";
    BlankTrim();
  }

  lemma NoNamesMatch(t: string)
    requires t == "7-b 20/19 kelmadi"
    ensures MatchLine(t) == None
  {
    NoNamesCounts(t);
    NoNamesTail(t);
  }

  /** No name before the keyword: refused. */
  lemma ExampleNoNames(t: string)
    requires t == "7-b 20/19 kelmadi"
    ensures ParseDavomat(t) == None
  {
    assert t[0] == '7' && t[|t| - 1] == 'i';
    TrimNoop(t);
    NoNamesMatch(t);
  }

  lemma ThreeNames()
    ensures WrittenName("bobur") && WrittenName("anvar") && WrittenName("olim")
  {
    OneWordName("bobur");
    OneWordName("anvar");
    OneWordName("olim");
  }

  /** Commas and "va" (in any case) both separate names. */
  lemma ExampleSeparators(s: string, u: string)
    requires s == "bobur, anvar va olim" && u == "bobur, anvar VA olim"
    ensures SplitNames(s) == ["bobur", "anvar", "olim"]
    ensures SplitNames(u) == ["bobur", "anvar", "olim"]
  {
    PlainSeparators();
    SplitWithVa(s, " va ");
    SplitWithVa(u, " VA ");
  }

  lemma SplitWithVa(s: string, va: string)
    requires IsSeparator(va) && IsSeparator(", ") && s == "bobur, anvar" + va + "olim"
    ensures SplitNames(s) == ["bobur", "anvar", "olim"]
  {
    SplitThree(s, ", ", va);
  }

  lemma PlainSeparators()
    ensures IsSeparator(", ") && IsSeparator(" va ") && IsSeparator(" VA ")
  {
    SpaceRunAt(" va ", 0, 1);
    SpaceRunAt(" VA ", 0, 1);
    assert LowerAscii('V') == 'v' && LowerAscii('A') == 'a';
  }

  /** White space of any kind and width around a comma or "va" is part of the separator. */
  lemma ExampleWideSeparators(s: string)
    requires s == "bobur ,  anvar\tva\n olim"
    ensures SplitNames(s) == ["bobur", "anvar", "olim"]
  {
    WideSeparators();
    WideText();
    SplitThree(s, " ,  ", "\tva\n ");
  }

  lemma WideText()
    ensures "bobur ,  anvar\tva\n olim" == "bobur" + " ,  " + "anvar" + "\tva\n " + "olim"
  {
  }

  lemma WideSeparators()
    ensures IsSeparator(" ,  ") && IsSeparator("\tva\n ")
  {
    SpaceRunAt(" ,  ", 0, 1);
    SpaceRunAt("\tva\n ", 0, 1);
  }

  lemma SplitThree(s: string, c: string, va: string)
    requires IsSeparator(c) && IsSeparator(va)
    requires s == "bobur" + c + "anvar" + va + "olim"
    ensures SplitNames(s) == ["bobur", "anvar", "olim"]
  {
    var ns := ["bobur", "anvar", "olim"];
    ThreeNames();
    assert ns[1..] == ["anvar", "olim"] && [c, va][1..] == [va];
    assert Interleave(["anvar", "olim"], [va]) == "anvar" + va + "olim";
    assert Interleave(ns, [c, va]) == s;
    SplitInterleave(ns, [c, va]);
  }

  /** A full name is a written name: its "Va" starts the longer word "Valiyev". */
  lemma FullName()
    ensures WrittenName("Ali Valiyev")
  {
    var n := "Ali Valiyev";
    forall i | 0 <= i < |n|
      ensures NameCharOk(n, i)
    {
      assert n[3] == ' ' && n[4] == 'V' && n[5] == 'a' && n[6] == 'l';
    }
  }

  /** A name of several words stays one name: only commas and the word "va" separate. */
  lemma ExampleFullName(s: string)
    requires s == "Ali Valiyev, anvar"
    ensures SplitNames(s) == ["Ali Valiyev", "anvar"]
  {
    var ns := ["Ali Valiyev", "anvar"];
    FullName();
    OneWordName("anvar");
    assert Interleave(ns, [", "]) == s;
    SplitInterleave(ns, [", "]);
  }

  lemma WrittenFull()
    ensures Line(Parsed("7-b", 20, 19, ["Ali Valiyev"]), []) == "7-b 20/19 Ali Valiyev kelmadi"
  {
    Numbers();
  }

  /** A report whose absent pupil has a full name: the name is kept whole. */
  lemma ExampleFullNameLine(t: string)
    requires t == "7-b 20/19 Ali Valiyev kelmadi"
    ensures ParseDavomat(t) == Some(Parsed("7-b", 20, 19, ["Ali Valiyev"]))
  {
    Labels();
    WrittenFull();
    FullName();
    ParseLine(Parsed("7-b", 20, 19, ["Ali Valiyev"]), []);
  }
}
