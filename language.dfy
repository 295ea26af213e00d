// Canonical BCP 47 language tags: lower-case ASCII letters, digits and '-',
// obtained from a tag or a POSIX locale by a per-character table.

module Language {

  import opened Common

  /** A canonicalised BCP 47 tag (the bytes it holds are all ASCII). */
  type Language = string

  /** The characters a canonical tag is made of. */
  predicate CanonChar(c: char)
  {
    'a' <= c <= 'z' || '0' <= c <= '9' || c == '-'
  }

  /**
   * The 256-entry canonicalisation table, entry by entry: upper-case letters
   * map to lower case, lower-case letters, digits and '-' to themselves, '_'
   * and '@' to '-', and every other character to 0 (dropped). Characters
   * past the table are dropped as well.
   */
  function CanonMap(c: char): (r: char)
    ensures r == 0 as char || CanonChar(r)
    ensures 'A' <= c <= 'Z' ==> r == (c as int + 32) as char
    ensures CanonChar(c) ==> r == c
    ensures c == '_' || c == '@' ==> r == '-'
    ensures r == 0 as char <==> !('A' <= c <= 'Z' || CanonChar(c) || c == '_' || c == '@')
  {
    if 'A' <= c <= 'Z' then (c as int + 32) as char
    else if CanonChar(c) then c
    else if c == '_' || c == '@' then '-'
    else 0 as char
  }

  /** The canonical form: each character mapped through the table, zeros dropped. */
  function Canon(s: string): (r: Language)
    ensures |r| <= |s|
    ensures forall i :: 0 <= i < |r| ==> CanonChar(r[i])
    decreases |s|
  {
    if s == [] then []
    else
      var can := CanonMap(s[|s| - 1]);
      Canon(s[..|s| - 1]) + (if can != 0 as char then [can] else [])
  }

  /**
   * `NewLanguage`: walks the characters and appends the non-zero table
   * entries, dropping the characters the table does not cover.
   */
  method NewLanguage(language: string) returns (out: Language)
    ensures out == Canon(language)
  {
    out := [];
    for i := 0 to |language|
      invariant out == Canon(language[..i])
    {
      var can := CanonMap(language[i]);
      if can != 0 as char {
        out := out + [can];
      }
      assert language[..i + 1][..i] == language[..i];
    }
    assert language[..|language|] == language;
  }

  /** Canonicalisation is idempotent: a canonical tag is its own canonical form. */
  lemma {:induction false} CanonIdempotent(s: string)
    ensures InTable(Canon(s)) && Canon(Canon(s)) == Canon(s)
    decreases |s|
  {
    if s != [] {
      var front := s[..|s| - 1];
      CanonIdempotent(front);
      var c := Canon(front);
      var can := CanonMap(s[|s| - 1]);
      assert Canon(s) == c + (if can != 0 as char then [can] else []);
      if can != 0 as char {
        assert CanonMap(can) == can;
        CanonSnoc(c, can);
      } else {
        assert c + [] == c;
      }
    }
  }

  /** Canonicalising one more character appends its table entry, unless that is 0. */
  lemma CanonSnoc(s: string, c: char)
    ensures Canon(s + [c]) == Canon(s) + (if CanonMap(c) != 0 as char then [CanonMap(c)] else [])
  {
    assert (s + [c])[..|s|] == s;
  }

  /** Canonicalisation works character by character: it distributes over concatenation. */
  lemma {:induction false} CanonAppend(a: string, b: string)
    ensures Canon(a + b) == Canon(a) + Canon(b)
    decreases |b|
  {
    if b == [] {
      assert a + b == a;
    } else {
      var front := b[..|b| - 1];
      CanonAppend(a, front);
      assert (a + b)[..|a + b| - 1] == a + front;
    }
  }

  /** A tag that is already canonical is left as it is. */
  lemma {:induction false} CanonFixes(s: string)
    requires forall i :: 0 <= i < |s| ==> CanonChar(s[i])
    ensures Canon(s) == s
    decreases |s|
  {
    if s != [] {
      CanonFixes(s[..|s| - 1]);
    }
  }

  /** The index of the first `c` in `s`, or -1 (`strings.IndexByte`). */
  function IndexOf(s: string, c: char): (i: int)
    ensures -1 <= i < |s|
    ensures i >= 0 ==> s[i] == c && c !in s[..i]
    ensures i == -1 ==> c !in s
    decreases |s|
  {
    if s == [] then -1
    else if s[0] == c then 0
    else
      var j := IndexOf(s[1..], c);
      assert s[1..] == s[..][1..];
      if j == -1 then -1
      else
        assert s[..j + 1] == [s[0]] + s[1..][..j];
        j + 1
  }

  /** `languageFromLocale`: the locale up to its first '.', canonicalised. */
  function LanguageFromLocale(locale: string): (r: Language)
  {
    var i := IndexOf(locale, '.');
    Canon(if i >= 0 then locale[..i] else locale)
  }

  /** The encoding part after the first '.' of a locale plays no part. */
  lemma LocaleDropsEncoding(name: string, encoding: string)
    requires '.' !in name
    ensures LanguageFromLocale(name + "." + encoding) == Canon(name)
  {
    var locale := name + "." + encoding;
    assert locale[|name|] == '.';
    assert locale[..|name|] == name;
    var i := IndexOf(locale, '.');
    assert i != -1 by { assert '.' in locale; }
    assert i == |name|;
  }

  /** A locale without '.' is canonicalised whole. */
  lemma LocaleWithoutEncoding(locale: string)
    requires '.' !in locale
    ensures LanguageFromLocale(locale) == Canon(locale)
  {
  }

  /**
   * The usual form of a POSIX locale, language '_' territory '.' codeset
   * (as in "en_US.UTF-8"), names the tag language '-' territory.
   */
  lemma LocaleTerritory(lang: string, territory: string, codeset: string)
    requires '.' !in lang && '.' !in territory
    ensures LanguageFromLocale(lang + "_" + territory + "." + codeset) == Canon(lang) + "-" + Canon(territory)
  {
    var name := lang + "_" + territory;
    assert '.' !in name by {
      forall i | 0 <= i < |name| ensures name[i] != '.' {
        if i < |lang| { assert name[i] == lang[i]; }
        else if i > |lang| { assert name[i] == territory[i - |lang| - 1]; }
      }
    }
    assert lang + "_" + territory + "." + codeset == name + "." + codeset;
    LocaleDropsEncoding(name, codeset);
    CanonSnoc(lang, '_');
    assert lang + ['_'] == lang + "_";
    CanonAppend(lang + "_", territory);
  }

  /** Every character is below 256, so Go's table can be indexed by it. */
  predicate InTable(s: string)
  {
    forall i :: 0 <= i < |s| ==> s[i] as int < |CanonTable|
  }

  const Z: char := 0 as char

  /** Go's `canonMap`, entry by entry: 128 listed entries, then 128 zeros. */
  const CanonTable: seq<char> :=
    Row0 + Row1 + Row2 + Row3 + Row4 + Row5 + Row6 + Row7 + Zeros(128)

  const Row0: seq<char> := [Z, Z, Z, Z, Z, Z, Z, Z, Z, Z, Z, Z, Z, Z, Z, Z]
  const Row1: seq<char> := [Z, Z, Z, Z, Z, Z, Z, Z, Z, Z, Z, Z, Z, Z, Z, Z]
  const Row2: seq<char> := [Z, Z, Z, Z, Z, Z, Z, Z, Z, Z, Z, Z, Z, '-', Z, Z]
  const Row3: seq<char> := ['0', '1', '2', '3', '4', '5', '6', '7', '8', '9', Z, Z, Z, Z, Z, Z]
  const Row4: seq<char> := ['-', 'a', 'b', 'c', 'd', 'e', 'f', 'g', 'h', 'i', 'j', 'k', 'l', 'm', 'n', 'o']
  const Row5: seq<char> := ['p', 'q', 'r', 's', 't', 'u', 'v', 'w', 'x', 'y', 'z', Z, Z, Z, Z, '-']
  const Row6: seq<char> := [Z, 'a', 'b', 'c', 'd', 'e', 'f', 'g', 'h', 'i', 'j', 'k', 'l', 'm', 'n', 'o']
  const Row7: seq<char> := ['p', 'q', 'r', 's', 't', 'u', 'v', 'w', 'x', 'y', 'z', Z, Z, Z, Z, Z]

  function Zeros(n: nat): (z: seq<char>)
    ensures |z| == n && forall i :: 0 <= i < n ==> z[i] == Z
  {
    if n == 0 then [] else Zeros(n - 1) + [Z]
  }

  /** The table's entries are those `CanonMap` describes. */
  lemma TableAgrees(b: int)
    requires 0 <= b < 256
    ensures |CanonTable| == 256 && CanonTable[b] == CanonMap(b as char)
  {
    if b < 128 {
      var r, j := b / 16, b % 16;
      match r
      case 0 => assert CanonTable[b] == Row0[j]; Row0Agrees(j);
      case 1 => assert CanonTable[b] == Row1[j]; Row1Agrees(j);
      case 2 => assert CanonTable[b] == Row2[j]; Row2Agrees(j);
      case 3 => assert CanonTable[b] == Row3[j]; Row3Agrees(j);
      case 4 => assert CanonTable[b] == Row4[j]; Row4Agrees(j);
      case 5 => assert CanonTable[b] == Row5[j]; Row5Agrees(j);
      case 6 => assert CanonTable[b] == Row6[j]; Row6Agrees(j);
      case 7 => assert CanonTable[b] == Row7[j]; Row7Agrees(j);
    } else {
      assert CanonTable[b] == Zeros(128)[b - 128];
    }
  }

  lemma Row0Agrees(j: int)
    requires 0 <= j < 16
    ensures |Row0| == 16 && Row0[j] == CanonMap((0 + j) as char)
  {
    match j
    case 0 => assert Row0[0] == CanonMap(0 as char);
    case 1 => assert Row0[1] == CanonMap(1 as char);
    case 2 => assert Row0[2] == CanonMap(2 as char);
    case 3 => assert Row0[3] == CanonMap(3 as char);
    case 4 => assert Row0[4] == CanonMap(4 as char);
    case 5 => assert Row0[5] == CanonMap(5 as char);
    case 6 => assert Row0[6] == CanonMap(6 as char);
    case 7 => assert Row0[7] == CanonMap(7 as char);
    case 8 => assert Row0[8] == CanonMap(8 as char);
    case 9 => assert Row0[9] == CanonMap(9 as char);
    case 10 => assert Row0[10] == CanonMap(10 as char);
    case 11 => assert Row0[11] == CanonMap(11 as char);
    case 12 => assert Row0[12] == CanonMap(12 as char);
    case 13 => assert Row0[13] == CanonMap(13 as char);
    case 14 => assert Row0[14] == CanonMap(14 as char);
    case 15 => assert Row0[15] == CanonMap(15 as char);
  }

  lemma Row1Agrees(j: int)
    requires 0 <= j < 16
    ensures |Row1| == 16 && Row1[j] == CanonMap((16 + j) as char)
  {
    match j
    case 0 => assert Row1[0] == CanonMap(16 as char);
    case 1 => assert Row1[1] == CanonMap(17 as char);
    case 2 => assert Row1[2] == CanonMap(18 as char);
    case 3 => assert Row1[3] == CanonMap(19 as char);
    case 4 => assert Row1[4] == CanonMap(20 as char);
    case 5 => assert Row1[5] == CanonMap(21 as char);
    case 6 => assert Row1[6] == CanonMap(22 as char);
    case 7 => assert Row1[7] == CanonMap(23 as char);
    case 8 => assert Row1[8] == CanonMap(24 as char);
    case 9 => assert Row1[9] == CanonMap(25 as char);
    case 10 => assert Row1[10] == CanonMap(26 as char);
    case 11 => assert Row1[11] == CanonMap(27 as char);
    case 12 => assert Row1[12] == CanonMap(28 as char);
    case 13 => assert Row1[13] == CanonMap(29 as char);
    case 14 => assert Row1[14] == CanonMap(30 as char);
    case 15 => assert Row1[15] == CanonMap(31 as char);
  }

  lemma Row2Agrees(j: int)
    requires 0 <= j < 16
    ensures |Row2| == 16 && Row2[j] == CanonMap((32 + j) as char)
  {
    match j
    case 0 => assert Row2[0] == CanonMap(32 as char);
    case 1 => assert Row2[1] == CanonMap(33 as char);
    case 2 => assert Row2[2] == CanonMap(34 as char);
    case 3 => assert Row2[3] == CanonMap(35 as char);
    case 4 => assert Row2[4] == CanonMap(36 as char);
    case 5 => assert Row2[5] == CanonMap(37 as char);
    case 6 => assert Row2[6] == CanonMap(38 as char);
    case 7 => assert Row2[7] == CanonMap(39 as char);
    case 8 => assert Row2[8] == CanonMap(40 as char);
    case 9 => assert Row2[9] == CanonMap(41 as char);
    case 10 => assert Row2[10] == CanonMap(42 as char);
    case 11 => assert Row2[11] == CanonMap(43 as char);
    case 12 => assert Row2[12] == CanonMap(44 as char);
    case 13 => assert Row2[13] == CanonMap(45 as char);
    case 14 => assert Row2[14] == CanonMap(46 as char);
    case 15 => assert Row2[15] == CanonMap(47 as char);
  }

  lemma Row3Agrees(j: int)
    requires 0 <= j < 16
    ensures |Row3| == 16 && Row3[j] == CanonMap((48 + j) as char)
  {
    match j
    case 0 => assert Row3[0] == CanonMap(48 as char);
    case 1 => assert Row3[1] == CanonMap(49 as char);
    case 2 => assert Row3[2] == CanonMap(50 as char);
    case 3 => assert Row3[3] == CanonMap(51 as char);
    case 4 => assert Row3[4] == CanonMap(52 as char);
    case 5 => assert Row3[5] == CanonMap(53 as char);
    case 6 => assert Row3[6] == CanonMap(54 as char);
    case 7 => assert Row3[7] == CanonMap(55 as char);
    case 8 => assert Row3[8] == CanonMap(56 as char);
    case 9 => assert Row3[9] == CanonMap(57 as char);
    case 10 => assert Row3[10] == CanonMap(58 as char);
    case 11 => assert Row3[11] == CanonMap(59 as char);
    case 12 => assert Row3[12] == CanonMap(60 as char);
    case 13 => assert Row3[13] == CanonMap(61 as char);
    case 14 => assert Row3[14] == CanonMap(62 as char);
    case 15 => assert Row3[15] == CanonMap(63 as char);
  }

  lemma Row4Agrees(j: int)
    requires 0 <= j < 16
    ensures |Row4| == 16 && Row4[j] == CanonMap((64 + j) as char)
  {
    match j
    case 0 => assert Row4[0] == CanonMap(64 as char);
    case 1 => assert Row4[1] == CanonMap(65 as char);
    case 2 => assert Row4[2] == CanonMap(66 as char);
    case 3 => assert Row4[3] == CanonMap(67 as char);
    case 4 => assert Row4[4] == CanonMap(68 as char);
    case 5 => assert Row4[5] == CanonMap(69 as char);
    case 6 => assert Row4[6] == CanonMap(70 as char);
    case 7 => assert Row4[7] == CanonMap(71 as char);
    case 8 => assert Row4[8] == CanonMap(72 as char);
    case 9 => assert Row4[9] == CanonMap(73 as char);
    case 10 => assert Row4[10] == CanonMap(74 as char);
    case 11 => assert Row4[11] == CanonMap(75 as char);
    case 12 => assert Row4[12] == CanonMap(76 as char);
    case 13 => assert Row4[13] == CanonMap(77 as char);
    case 14 => assert Row4[14] == CanonMap(78 as char);
    case 15 => assert Row4[15] == CanonMap(79 as char);
  }

  lemma Row5Agrees(j: int)
    requires 0 <= j < 16
    ensures |Row5| == 16 && Row5[j] == CanonMap((80 + j) as char)
  {
    match j
    case 0 => assert Row5[0] == CanonMap(80 as char);
    case 1 => assert Row5[1] == CanonMap(81 as char);
    case 2 => assert Row5[2] == CanonMap(82 as char);
    case 3 => assert Row5[3] == CanonMap(83 as char);
    case 4 => assert Row5[4] == CanonMap(84 as char);
    case 5 => assert Row5[5] == CanonMap(85 as char);
    case 6 => assert Row5[6] == CanonMap(86 as char);
    case 7 => assert Row5[7] == CanonMap(87 as char);
    case 8 => assert Row5[8] == CanonMap(88 as char);
    case 9 => assert Row5[9] == CanonMap(89 as char);
    case 10 => assert Row5[10] == CanonMap(90 as char);
    case 11 => assert Row5[11] == CanonMap(91 as char);
    case 12 => assert Row5[12] == CanonMap(92 as char);
    case 13 => assert Row5[13] == CanonMap(93 as char);
    case 14 => assert Row5[14] == CanonMap(94 as char);
    case 15 => assert Row5[15] == CanonMap(95 as char);
  }

  lemma Row6Agrees(j: int)
    requires 0 <= j < 16
    ensures |Row6| == 16 && Row6[j] == CanonMap((96 + j) as char)
  {
    match j
    case 0 => assert Row6[0] == CanonMap(96 as char);
    case 1 => assert Row6[1] == CanonMap(97 as char);
    case 2 => assert Row6[2] == CanonMap(98 as char);
    case 3 => assert Row6[3] == CanonMap(99 as char);
    case 4 => assert Row6[4] == CanonMap(100 as char);
    case 5 => assert Row6[5] == CanonMap(101 as char);
    case 6 => assert Row6[6] == CanonMap(102 as char);
    case 7 => assert Row6[7] == CanonMap(103 as char);
    case 8 => assert Row6[8] == CanonMap(104 as char);
    case 9 => assert Row6[9] == CanonMap(105 as char);
    case 10 => assert Row6[10] == CanonMap(106 as char);
    case 11 => assert Row6[11] == CanonMap(107 as char);
    case 12 => assert Row6[12] == CanonMap(108 as char);
    case 13 => assert Row6[13] == CanonMap(109 as char);
    case 14 => assert Row6[14] == CanonMap(110 as char);
    case 15 => assert Row6[15] == CanonMap(111 as char);
  }

  lemma Row7Agrees(j: int)
    requires 0 <= j < 16
    ensures |Row7| == 16 && Row7[j] == CanonMap((112 + j) as char)
  {
    match j
    case 0 => assert Row7[0] == CanonMap(112 as char);
    case 1 => assert Row7[1] == CanonMap(113 as char);
    case 2 => assert Row7[2] == CanonMap(114 as char);
    case 3 => assert Row7[3] == CanonMap(115 as char);
    case 4 => assert Row7[4] == CanonMap(116 as char);
    case 5 => assert Row7[5] == CanonMap(117 as char);
    case 6 => assert Row7[6] == CanonMap(118 as char);
    case 7 => assert Row7[7] == CanonMap(119 as char);
    case 8 => assert Row7[8] == CanonMap(120 as char);
    case 9 => assert Row7[9] == CanonMap(121 as char);
    case 10 => assert Row7[10] == CanonMap(122 as char);
    case 11 => assert Row7[11] == CanonMap(123 as char);
    case 12 => assert Row7[12] == CanonMap(124 as char);
    case 13 => assert Row7[13] == CanonMap(125 as char);
    case 14 => assert Row7[14] == CanonMap(126 as char);
    case 15 => assert Row7[15] == CanonMap(127 as char);
  }

  /**
   * `NewLanguage` as written: Go ranges over the runes of the string and
   * indexes the 256-entry table with each, appending the non-zero entries;
   * a rune from U+0100 on is an index out of range.
   */
  function NewLanguageAsWritten(language: string): Outcome<Language>
    decreases |language|
  {
    if language == [] then Done([])
    else
      match NewLanguageAsWritten(language[..|language| - 1])
      case Panic => Panic
      case Done(front) =>
        var b := language[|language| - 1] as int;
        if b >= |CanonTable| then Panic
        else Done(front + (if CanonTable[b] != Z then [CanonTable[b]] else []))
  }

  /**
   * The code as written panics exactly on a character past the table, and
   * otherwise canonicalises as `Canon`.
   */
  lemma {:induction false} AsWrittenAgrees(language: string)
    ensures NewLanguageAsWritten(language).Done? <==> InTable(language)
    ensures InTable(language) ==> NewLanguageAsWritten(language) == Done(Canon(language))
    decreases |language|
  {
    if language != [] {
      var front := language[..|language| - 1];
      AsWrittenAgrees(front);
      var b := language[|language| - 1] as int;
      assert InTable(language) <==> InTable(front) && b < |CanonTable| by {
        assert forall i :: 0 <= i < |front| ==> front[i] == language[i];
      }
      if b < |CanonTable| {
        TableAgrees(b);
        assert b as char == language[|language| - 1];
      }
    }
  }

  /**
   * A tag holding a character past the table, such as "en-\U{0100}", panics as
   * written, where the documented behaviour strips that character.
   */
  lemma WideCharPanics()
    ensures NewLanguageAsWritten("en-\U{0100}") == Panic
    ensures Canon("en-\U{0100}") == "en-"
  {
    AsWrittenAgrees("en-\U{0100}");
    assert "en-\U{0100}"[3] as int == 0x100;
    CanonSnoc("en-", '\U{0100}');
    assert "en-" + ['\U{0100}'] == "en-\U{0100}";
    CanonFixes("en-");
  }
}
