/** Instruction paths of the form "outer:1|inner:2" spelled out in event metadata. */
module InstructionPaths {
  import opened Sums
  import opened Text

  function Lookup(metadata: map<string, string>, key: string): string {
    if key in metadata then metadata[key] else ""
  }

  /** balanceEventPath. */
  function InstructionPath(outer: int, inner: int): string {
    "outer:" + FormatInt(Int32(outer)) + "|inner:" + FormatInt(Int32(inner))
  }

  function WithoutSpaces(s: string): string {
    if s == "" then "" else (if s[0] == ' ' then "" else [s[0]]) + WithoutSpaces(s[1..])
  }

  /** The parts of a string around its bars. */
  function SplitAtBars(s: string): (parts: seq<string>)
    ensures |parts| >= 1
  {
    if s == "" then [""]
    else
      var rest := SplitAtBars(s[1..]);
      if s[0] == '|' then [""] + rest else [[s[0]] + rest[0]] + rest[1..]
  }

  /** strconv.Atoi: a signed decimal that fits 64 bits. */
  function Atoi(s: string): Option<int> {
    match ParseDecimal(s)
    case Some(n) => if -0x8000_0000_0000_0000 <= n < 0x8000_0000_0000_0000 then Some(n) else None
    case None => None
  }

  /** parsePathIndexPart. */
  function IndexPart(part: string, key: string): Option<int> {
    if HasPrefix(part, key + ":") then Atoi(TrimPrefix(part, key + ":"))
    else if HasPrefix(part, key + "=") then Atoi(TrimPrefix(part, key + "="))
    else None
  }

  /** parseSolanaInstructionPath. */
  function ParsePath(path: string): Option<(int, int)> {
    var parts := SplitAtBars(WithoutSpaces(ToLower(TrimSpace(path))));
    if TrimSpace(path) == "" || |parts| != 2 then None
    else match (IndexPart(parts[0], "outer"), IndexPart(parts[1], "inner"))
      case (Some(outer), Some(inner)) => Some((outer, inner))
      case _ => None
  }

  type PathParser = string -> Option<(int, int)>

  function ParsedAt(parse: PathParser, metadata: map<string, string>, key: string): Option<(int, int)> {
    parse(Lookup(metadata, key))
  }

  /** The first of the three path keys whose text parses. */
  function FirstPath(parse: PathParser, metadata: map<string, string>): Option<(int, int)> {
    if ParsedAt(parse, metadata, "event_path").Some? then ParsedAt(parse, metadata, "event_path")
    else if ParsedAt(parse, metadata, "instruction_path").Some? then ParsedAt(parse, metadata, "instruction_path")
    else ParsedAt(parse, metadata, "solana_event_path")
  }

  function MetadataPath(metadata: map<string, string>): Option<(int, int)> {
    FirstPath(ParsePath, metadata)
  }

  // ----- Reading a path -----

  lemma {:induction false} NoSpaces(s: string)
    requires ' ' !in s
    ensures WithoutSpaces(s) == s
    decreases |s|
  {
    if s != "" {
      assert s == [s[0]] + s[1..];
      NoSpaces(s[1..]);
    }
  }

  lemma {:induction false} NoBars(s: string)
    requires '|' !in s
    ensures SplitAtBars(s) == [s]
    decreases |s|
  {
    if s != "" {
      assert s == [s[0]] + s[1..];
      NoBars(s[1..]);
    }
  }

  lemma {:induction false} OneBar(p: string, q: string)
    requires '|' !in p && '|' !in q
    ensures SplitAtBars(p + "|" + q) == [p, q]
    decreases |p|
  {
    var s := p + "|" + q;
    if p == "" {
      assert s[0] == '|' && s[1..] == q;
      NoBars(q);
    } else {
      assert p == [p[0]] + p[1..] && s[0] == p[0] && s[1..] == p[1..] + "|" + q;
      OneBar(p[1..], q);
    }
  }

  predicate IsPlain(c: char) {
    !('A' <= c <= 'Z') && !IsSpace(c)
  }

  /** Neither an upper-case letter nor white space. */
  predicate Plain(s: string) {
    forall i | 0 <= i < |s| :: IsPlain(s[i])
  }

  lemma PlainJoin(p: string, q: string)
    requires Plain(p) && Plain(q)
    ensures Plain(p + "|" + q)
  {
    var s := p + "|" + q;
    forall i | 0 <= i < |s| ensures IsPlain(s[i]) {
      assert i == |p| ==> s[i] == '|' && IsPlain('|');
    }
  }

  lemma PlainIsTrimmed(s: string)
    requires Plain(s)
    ensures TrimSpace(s) == s
  {
    assert s != "" ==> IsPlain(s[0]) && IsPlain(s[|s| - 1]);
    assert Trimmed(s);
  }

  lemma PlainIsLower(s: string)
    requires Plain(s)
    ensures ToLower(s) == s
  {
    forall i | 0 <= i < |s| ensures !('A' <= s[i] <= 'Z') { assert IsPlain(s[i]); }
    LowerSame(s);
  }

  lemma PlainHasNoSpaces(s: string)
    requires Plain(s)
    ensures WithoutSpaces(s) == s
  {
    forall i | 0 <= i < |s| ensures s[i] != ' ' { assert IsPlain(s[i]); }
    NoSpaces(s);
  }

  /** A lower-case text without white space is read part by part. */
  lemma ReadPath(p: string, q: string)
    requires '|' !in p && '|' !in q && p != "" && q != ""
    requires Plain(p) && Plain(q)
    ensures ParsePath(p + "|" + q) ==
            match (IndexPart(p, "outer"), IndexPart(q, "inner")) {
              case (Some(outer), Some(inner)) => Some((outer, inner))
              case _ => None
            }
  {
    var s := p + "|" + q;
    PlainJoin(p, q);
    PlainIsTrimmed(s);
    PlainIsLower(s);
    PlainHasNoSpaces(s);
    OneBar(p, q);
  }

  function Digit(c: char): int {
    c as int - '0' as int
  }

  lemma OneDigit(key: string, c: char)
    requires '0' <= c <= '9'
    ensures IndexPart(key + ":" + [c], key) == Some(Digit(c))
  {
    var s := key + ":" + [c];
    assert s[..|key + ":"|] == key + ":" && s[|key + ":"|..] == [c];
    assert AllDigits([c]) && [c][..0] == "";
    assert DigitsValue([c]) == Digit(c);
  }

  /** The text "outer:a|inner:b". */
  function PathText(a: char, b: char): string {
    "outer:" + [a] + "|" + ("inner:" + [b])
  }

  /** A path of two one-digit indices is read back. */
  lemma DigitPath(a: char, b: char)
    requires '0' <= a <= '9' && '0' <= b <= '9'
    ensures ParsePath(PathText(a, b)) == Some((Digit(a), Digit(b)))
  {
    var p, q := "outer:" + [a], "inner:" + [b];
    assert p == "outer" + ":" + [a] && q == "inner" + ":" + [b];
    OneDigit("outer", a);
    OneDigit("inner", b);
    ReadPath(p, q);
  }

  /** Paths with different one-digit outer indices differ. */
  lemma PathsDiffer(a: int, b: int, a': int, b': int)
    requires 0 <= a <= 9 && 0 <= a' <= 9 && a != a'
    ensures InstructionPath(a, b) != InstructionPath(a', b')
  {
    assert Int32(a) == a && Int32(a') == a';
    assert InstructionPath(a, b)[6] == FormatNat(a)[0] && InstructionPath(a', b')[6] == FormatNat(a')[0];
  }

  /** A text without a bar spells no path. */
  lemma NoBarNoPath(s: string)
    requires '|' !in s && s != "" && Plain(s)
    ensures ParsePath(s) == None
  {
    PlainIsTrimmed(s);
    PlainIsLower(s);
    PlainHasNoSpaces(s);
    NoBars(s);
  }
}
