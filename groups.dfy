/**
 * Class names such as "7b" and "7-b": the bot treats both spellings as one group when it
 * checks a teacher's access, by looking the group up under every spelling in turn.
 */
module GroupNames {
  import opened Wrappers
  import opened Text

  /** The pieces of a name of the shape digits, an optional '-', then one letter. */
  datatype LetterName = LetterName(num: string, letter: string)

  /**
   * The match of `^(\d+)([-]?)([a-z]?)$` (case-insensitive) when its letter group is not
   * empty: the digits and the letter; None when the pattern fails or has no letter.
   */
  function LetterForm(name: string): (r: Option<LetterName>)
    ensures r.Some? ==>
      && |r.value.num| >= 1 && AllDigits(r.value.num)
      && |r.value.letter| == 1 && IsLetter(r.value.letter[0])
      && (name == r.value.num + r.value.letter || name == r.value.num + "-" + r.value.letter)
  {
    var d := DigitRun(name, 0);
    if d == 0 || d == |name| then None
    else if d + 1 == |name| && IsLetter(name[d]) then
      assert name == name[..d] + name[d..];
      Some(LetterName(name[..d], name[d..]))
    else if d + 2 == |name| && name[d] == '-' && IsLetter(name[d + 1]) then
      assert name == name[..d] + "-" + name[d + 1..];
      Some(LetterName(name[..d], name[d + 1..]))
    else None
  }

  /** Both spellings of a lettered class name are recognised, with the same pieces. */
  lemma LetterFormOf(num: string, c: char)
    requires |num| >= 1 && AllDigits(num) && IsLetter(c)
    ensures LetterForm(num + [c]) == Some(LetterName(num, [c]))
    ensures LetterForm(num + "-" + [c]) == Some(LetterName(num, [c]))
  {
    var a := num + [c];
    var b := num + "-" + [c];
    assert a[..|num|] == num && b[..|num|] == num;
    DigitRunAt(a, 0, |num|);
    DigitRunAt(b, 0, |num|);
    assert a[|num|..] == [c];
    assert b[|num| + 1..] == [c];
  }

  /**
   * `groupNameVariants`: the name itself first, then, for a lettered class name, its other
   * spelling (with the hyphen added or removed). Any other name has no variant.
   */
  function GroupNameVariants(name: string): (r: seq<string>)
    ensures 1 <= |r| <= 2 && r[0] == name
    ensures |r| == 2 <==> LetterForm(name).Some?
    ensures |r| == 2 ==> r[1] != name
  {
    match LetterForm(name)
    case None => [name]
    case Some(f) =>
      var withHyphen := f.num + "-" + f.letter;
      var withoutHyphen := f.num + f.letter;
      assert |withHyphen| != |withoutHyphen|;
      if name == withHyphen then [name, withoutHyphen] else [name, withHyphen]
  }

  /** The spelling without a hyphen, which both spellings of one class share. */
  function Key(name: string): string {
    match LetterForm(name)
    case None => name
    case Some(f) => f.num + f.letter
  }

  /** A name that is not a lettered class name is not the key of any lettered one. */
  lemma KeyOfPlain(x: string, y: string)
    requires LetterForm(x).None? && LetterForm(y).Some?
    ensures Key(y) != x
  {
    var g := LetterForm(y).value;
    LetterFormOf(g.num, g.letter[0]);
    assert [g.letter[0]] == g.letter;
  }

  /**
   * Two names are spellings of each other exactly when they have the same key: looking a
   * name up under its variants finds the same groups as looking up any other spelling.
   */
  lemma VariantsIffSameKey(x: string, y: string)
    ensures y in GroupNameVariants(x) <==> Key(y) == Key(x)
  {
    var v := GroupNameVariants(x);
    match LetterForm(x)
    case None =>
      if LetterForm(y).Some? { KeyOfPlain(x, y); }
    case Some(f) =>
      LetterFormOf(f.num, f.letter[0]);
      assert [f.letter[0]] == f.letter;
      match LetterForm(y)
      case None =>
        KeyOfPlain(y, x);
      case Some(g) =>
        if Key(y) == Key(x) {
          assert g.num + g.letter == f.num + f.letter;
          assert g.letter == (g.num + g.letter)[|g.num|..];
          assert f.letter == (f.num + f.letter)[|f.num|..];
          assert g.num == (g.num + g.letter)[..|g.num|];
          assert f.num == (f.num + f.letter)[..|f.num|];
          assert g == f;
        }
  }

  /** Being a spelling of each other is symmetric. */
  lemma VariantsSymmetric(x: string, y: string)
    requires y in GroupNameVariants(x)
    ensures x in GroupNameVariants(y)
  {
    VariantsIffSameKey(x, y);
    VariantsIffSameKey(y, x);
  }

  lemma KeysOfSeven(a: string, b: string, c: string)
    requires a == "7b" && b == "7-b" && c == "8-b"
    ensures Key(a) == "7b" && Key(b) == "7b" && Key(c) == "8b"
  {
    LetterFormOf("7", 'b');
    LetterFormOf("8", 'b');
    assert a == "7" + ['b'] && b == "7" + "-" + ['b'] && c == "8" + "-" + ['b'];
  }

  /** "7b" and "7-b" are each other's variants; "8-b" is a variant of neither. */
  lemma ExampleSevenB(a: string, b: string, c: string)
    requires a == "7b" && b == "7-b" && c == "8-b"
    ensures b in GroupNameVariants(a) && a in GroupNameVariants(b)
    ensures c !in GroupNameVariants(a) && c !in GroupNameVariants(b)
  {
    KeysOfSeven(a, b, c);
    VariantsIffSameKey(a, b);
    VariantsIffSameKey(b, a);
    VariantsIffSameKey(a, c);
    VariantsIffSameKey(b, c);
  }
}
