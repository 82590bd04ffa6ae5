/** The fragment of Python's `re` that the two pattern tables use, with the
    semantics of `re.match`: anchored at the start of the text, not at its
    end, so a pattern accepts every text that begins with something it
    describes. A pattern is a list of alternatives; an alternative is a
    list of atoms: a literal text, or a character class taken once or
    optionally. */
module Pattern {

  datatype CharClass =
    | Chars(cs: seq<char>)     // `[abc]`, or a single literal character
    | Span(lo: char, hi: char) // `[0-9]`
    | AnyButNewline            // `.`

  datatype Atom =
    | Literal(t: string)     // characters that stand for themselves
    | Once(k: CharClass)
    | Optional(k: CharClass)

  type Alternative = seq<Atom>

  /** `a|b|c` at the top level of a pattern. */
  type Regex = seq<Alternative>

  predicate InClass(c: char, k: CharClass) {
    match k
    case Chars(cs) => c in cs
    case Span(lo, hi) => lo <= c <= hi
    case AnyButNewline => c != '\n'
  }

  /** Some way of matching `atoms` consumes a prefix of `s`. The choice at
      an optional atom is the backtracking of the regex engine. */
  predicate MatchesPrefix(atoms: Alternative, s: string)
    decreases |atoms|
  {
    if |atoms| == 0 then true
    else
      match atoms[0]
      case Literal(t) => t <= s && MatchesPrefix(atoms[1..], s[|t|..])
      case Once(k) => |s| > 0 && InClass(s[0], k) && MatchesPrefix(atoms[1..], s[1..])
      case Optional(k) =>
        || (|s| > 0 && InClass(s[0], k) && MatchesPrefix(atoms[1..], s[1..]))
        || MatchesPrefix(atoms[1..], s)
  }

  /** `re.match(pattern, s)` succeeds. */
  predicate Match(re: Regex, s: string) {
    exists i :: 0 <= i < |re| && MatchesPrefix(re[i], s)
  }

  /** A pattern that is one literal matches exactly the texts it begins. */
  lemma LiteralMatches(t: string, s: string)
    ensures Match([[Literal(t)]], s) <==> t <= s
  {
    var re: Regex := [[Literal(t)]];
    assert re[0][1..] == [];
    if t <= s {
      assert MatchesPrefix(re[0], s);
    }
  }

  // ---- shorthands for the tables ---------------------------------------

  const Digit: Atom := Once(Span('0', '9'))
  const NonZeroDigit: Atom := Once(Span('1', '9'))
  const OptionalDigit: Atom := Optional(Span('0', '9'))

  /** `[ADFJMNOS][aceopu][bcglnprtvy]`: the shape of a month abbreviation. */
  const Month: Alternative :=
    [ Once(Chars(['A', 'D', 'F', 'J', 'M', 'N', 'O', 'S']))
    , Once(Chars(['a', 'c', 'e', 'o', 'p', 'u']))
    , Once(Chars(['b', 'c', 'g', 'l', 'n', 'p', 'r', 't', 'v', 'y'])) ]

  /** `[ADFJMNOS][aceopu][bcglnprtvy] [1-9][0-9]?, 20[12][89012]`: a date. */
  const Date: Alternative :=
    Month + [Literal(" "), NonZeroDigit, OptionalDigit, Literal(", 20")
    , Once(Chars(['1', '2'])), Once(Chars(['8', '9', '0', '1', '2'])) ]
}
