// OpenType script and language tags: the script tags (old-style and the
// Indic '…2'/'…3' ones) of a script, and the script and language tags a
// BCP 47 language string requests through its '-hbsc'/'-hbot' private-use
// subtags (section 2.2.7 of RFC 5646 for the 'x' singleton).

module OTTag {
  import opened Common

  // ---------------------------------------------------------------- tags

  /** A four-byte tag packed big-endian into 32 bits. */
  type Tag = bv32

  /** A script, as the ISO 15924 code packed like a tag ('Latn'); 0 is no script. */
  type Script = bv32

  /** Byte `i` (0 = first, most significant) of a tag. */
  function TagByte(t: Tag, i: nat): bv8
    requires i < 4
  {
    if i == 0 then ((t >> 24) & 0xFF) as bv8
    else if i == 1 then ((t >> 16) & 0xFF) as bv8
    else if i == 2 then ((t >> 8) & 0xFF) as bv8
    else (t & 0xFF) as bv8
  }

  /** `newTag`: packs four bytes big-endian; its bytes read back. */
  function NewTag(a: bv8, b: bv8, c: bv8, d: bv8): (t: Tag)
    ensures TagByte(t, 0) == a && TagByte(t, 1) == b && TagByte(t, 2) == c && TagByte(t, 3) == d
  {
    (a as bv32 << 24) | (b as bv32 << 16) | (c as bv32 << 8) | d as bv32
  }

  /** A tag is determined by its four bytes. */
  lemma TagFromBytes(t: Tag)
    ensures NewTag(TagByte(t, 0), TagByte(t, 1), TagByte(t, 2), TagByte(t, 3)) == t
  {
  }

  /** `DFLT`, the script tag of features that are not script-specific. */
  const DefaultScript: Tag := 0x4446_4C54  // 'DFLT'
  /** `dflt`, the default language tag. */
  const DefaultLanguage: Tag := 0x6466_6C74  // 'dflt'

  // ISO 15924 codes of the scripts with their own tags.
  const Hiragana: Script := 0x4869_7261  // 'Hira'
  const Lao: Script := 0x4C61_6F6F  // 'Laoo'
  const Yi: Script := 0x5969_6969  // 'Yiii'
  const Nko: Script := 0x4E6B_6F6F  // 'Nkoo'
  const Vai: Script := 0x5661_6969  // 'Vaii'
  const Bengali: Script := 0x4265_6E67  // 'Beng'
  const Devanagari: Script := 0x4465_7661  // 'Deva'
  const Gujarati: Script := 0x4775_6A72  // 'Gujr'
  const Gurmukhi: Script := 0x4775_7275  // 'Guru'
  const Kannada: Script := 0x4B6E_6461  // 'Knda'
  const Malayalam: Script := 0x4D6C_796D  // 'Mlym'
  const Oriya: Script := 0x4F72_7961  // 'Orya'
  const Tamil: Script := 0x5461_6D6C  // 'Taml'
  const Telugu: Script := 0x5465_6C75  // 'Telu'
  const Myanmar: Script := 0x4D79_6D72  // 'Mymr'
  const Katakana: Script := 0x4B61_6E61  // 'Kana'

  // ---------------------------------------------------------------- script tags

  /** The old-style tag: lower-cased code, with a few exceptions. */
  function OldTagFromScript(script: Script): (r: Tag)
    ensures r == DefaultScript <==> script == 0
  {
    if script == 0 then DefaultScript
    else if script == Hiragana then 0x6B61_6E61 /* 'kana' */
    else if script == Lao then 0x6C61_6F20 /* 'lao ' */
    else if script == Yi then 0x7969_2020 /* 'yi  ' */
    else if script == Nko then 0x6E6B_6F20 /* 'nko ' */
    else if script == Vai then 0x7661_6920 /* 'vai ' */
    else script | 0x2000_0000
  }

  /**
   * The inverse direction (kept as reference text beside the Go code): a DFLT
   * tag is no script; trailing spaces repeat the letter before them and the
   * first letter is upper-cased.
   */
  function OldTagToScript(tag: Tag): Script
  {
    if tag == DefaultScript then 0
    else
      var t1 := if tag & 0x0000_FF00 == 0x0000_2000 then tag | ((tag >> 8) & 0x0000_FF00) else tag;
      var t2 := if t1 & 0x0000_00FF == 0x0000_0020 then t1 | ((t1 >> 8) & 0x0000_00FF) else t1;
      t2 & !0x2000_0000
  }

  predicate Upper(b: bv8) { 0x41 <= b <= 0x5A }
  predicate Lower(b: bv8) { 0x61 <= b <= 0x7A }

  /** A script code as ISO 15924 writes it: a capital, then three small letters. */
  predicate IsoCode(s: Script)
  {
    Upper(TagByte(s, 0)) && Lower(TagByte(s, 1)) && Lower(TagByte(s, 2)) && Lower(TagByte(s, 3))
  }

  /**
   * The old-style tag of an ISO 15924 code is the code with its first letter
   * in lower case.
   */
  lemma OldTagLowercases(script: Script)
    requires IsoCode(script) && script !in {Hiragana, Lao, Yi, Nko, Vai}
    ensures TagByte(OldTagFromScript(script), 0) == TagByte(script, 0) + 0x20
    ensures forall i :: 1 <= i < 4 ==> TagByte(OldTagFromScript(script), i) == TagByte(script, i)
  {
    assert script != 0 by { assert TagByte(0, 0) == 0; }
  }

  /**
   * Old-style tags lose nothing but the Hiragana/Katakana distinction:
   * mapping back gives the script again, the space-padded tags included.
   */
  lemma OldTagRoundTrip(script: Script)
    requires IsoCode(script) && script != Hiragana
    ensures OldTagToScript(OldTagFromScript(script)) == script
  {
    assert script != 0 by { assert TagByte(0, 0) == 0; }
    if script !in {Lao, Yi, Nko, Vai} {
      var t := script | 0x2000_0000;
      assert t & 0x0000_FF00 != 0x0000_2000 by { assert TagByte(t, 2) == TagByte(script, 2); }
      assert t & 0x0000_00FF != 0x0000_0020 by { assert TagByte(t, 3) == TagByte(script, 3); }
      assert t != DefaultScript by { assert TagByte(t, 0) != TagByte(DefaultScript, 0); }
    }
  }

  /** Hiragana shares the old-style tag of Katakana. */
  lemma HiraganaIsKana()
    ensures OldTagFromScript(Hiragana) == OldTagFromScript(Katakana)
  {
  }

  /** The Indic scripts with a second-generation ('…2') tag, and Myanmar. */
  predicate HasNewTag(script: Script)
  {
    script in {Bengali, Devanagari, Gujarati, Gurmukhi, Kannada, Malayalam, Oriya, Tamil, Telugu, Myanmar}
  }

  /** The '…2' tag of the ten scripts that have one, DFLT for all others. */
  function NewTagFromScript(script: Script): (r: Tag)
    ensures r != DefaultScript <==> HasNewTag(script)
    ensures r != DefaultScript ==> TagByte(r, 3) == '2' as bv8
  {
    if script == Bengali then 0x626E_6732 /* 'bng2' */
    else if script == Devanagari then 0x6465_7632 /* 'dev2' */
    else if script == Gujarati then 0x676A_7232 /* 'gjr2' */
    else if script == Gurmukhi then 0x6775_7232 /* 'gur2' */
    else if script == Kannada then 0x6B6E_6432 /* 'knd2' */
    else if script == Malayalam then 0x6D6C_6D32 /* 'mlm2' */
    else if script == Oriya then 0x6F72_7932 /* 'ory2' */
    else if script == Tamil then 0x746D_6C32 /* 'tml2' */
    else if script == Telugu then 0x7465_6C32 /* 'tel2' */
    else if script == Myanmar then 0x6D79_6D32 /* 'mym2' */
    else DefaultScript
  }

  /** The third-generation tag: the '…2' tag with last byte '3' (`tag | '3'`). */
  function ThirdTag(tag: Tag): (r: Tag)
    requires TagByte(tag, 3) == '2' as bv8
    ensures TagByte(r, 3) == '3' as bv8
    ensures forall i :: 0 <= i < 3 ==> TagByte(r, i) == TagByte(tag, i)
  {
    tag | '3' as bv32
  }

  /**
   * All script tags of a script, best first: the '…3' and '…2' tags of the
   * nine Indic scripts, 'mym2' for Myanmar (there is no 'mym3'), then the
   * old-style tag; nothing for script 0.
   */
  function AllTagsOf(script: Script): seq<Tag>
  {
    if script == 0 then []
    else if script == Myanmar then [0x6D79_6D32 /* 'mym2' */, OldTagFromScript(script)]
    else if HasNewTag(script) then
      [ThirdTag(NewTagFromScript(script)), NewTagFromScript(script), OldTagFromScript(script)]
    else [OldTagFromScript(script)]
  }

  method AllTagsFromScript(script: Script) returns (tags: seq<Tag>)
    ensures tags == AllTagsOf(script)
  {
    tags := [];
    var tag := NewTagFromScript(script);
    if tag != DefaultScript {
      if tag != 0x6D79_6D32 /* 'mym2' */ {
        tags := tags + [tag | '3' as bv32];
      }
      tags := tags + [tag];
    }
    var oldTag := OldTagFromScript(script);
    if oldTag != DefaultScript {
      tags := tags + [oldTag];
    }
  }

  /** No tag in the list is DFLT, and the list is empty exactly for script 0. */
  lemma AllTagsNotDefault(script: Script)
    ensures (AllTagsOf(script) == []) <==> script == 0
    ensures forall i :: 0 <= i < |AllTagsOf(script)| ==> AllTagsOf(script)[i] != DefaultScript
  {
  }

  // ---------------------------------------------------------------- characters

  /**
   * The character at `i`, or NUL past the end: the terminator the C original
   * of this code reads there.
   */
  function At(s: string, i: int): char
  {
    if 0 <= i < |s| then s[i] else 0 as char
  }

  predicate IsAlpha(c: char) { 'a' <= c <= 'z' || 'A' <= c <= 'Z' }
  predicate IsAlnum(c: char) { IsAlpha(c) || '0' <= c <= '9' }
  predicate IsHex(c: char) { '0' <= c <= '9' || 'a' <= c <= 'f' || 'A' <= c <= 'F' }

  function HexValue(c: char): (v: bv8)
    requires IsHex(c)
    ensures v < 16
  {
    if c <= '9' then (c as int - '0' as int) as bv8
    else if c <= 'F' then (c as int - 'A' as int + 10) as bv8
    else (c as int - 'a' as int + 10) as bv8
  }

  /** The two normalisations the subtags use: ASCII lower or upper case. */
  datatype Normalize = ToLower | ToUpper

  function Norm(n: Normalize, c: char): (r: char)
    requires IsAlnum(c)
    ensures IsAlnum(r)
    ensures n.ToLower? ==> !('A' <= r <= 'Z')
    ensures n.ToUpper? ==> !('a' <= r <= 'z')
  {
    match n
    case ToLower => if 'A' <= c <= 'Z' then (c as int + 32) as char else c
    case ToUpper => if 'a' <= c <= 'z' then (c as int - 32) as char else c
  }

  predicate OccursAt(s: string, p: string, i: int)
  {
    0 <= i && i + |p| <= |s| && s[i..i + |p|] == p
  }

  /** `strings.Index` from `from` on: the first occurrence of `p`, or -1. */
  function Find(s: string, p: string, from: nat): (r: int)
    ensures r == -1 ==> forall i :: from <= i ==> !OccursAt(s, p, i)
    ensures r != -1 ==> from <= r && OccursAt(s, p, r) && forall i :: from <= i < r ==> !OccursAt(s, p, i)
    decreases |s| - from
  {
    if from + |p| > |s| then -1
    else if OccursAt(s, p, from) then from
    else Find(s, p, from + 1)
  }

  // ---------------------------------------------------------------- private-use subtags

  /**
   * The tag OpenType cannot use: one equal to DFLT ignoring case has the
   * case of all four bytes toggled (`out ^= ^0xDFDFDFDF`); any other tag is
   * kept.
   */
  function ToggleDefault(t: Tag): Tag
  {
    if t & 0xDFDF_DFDF == DefaultScript then t ^ !0xDFDF_DFDF else t
  }

  /** Toggling flips bit 5 of each of the four bytes, and touches nothing else. */
  lemma ToggleDefaultBytes(t: Tag)
    ensures t & 0xDFDF_DFDF == DefaultScript ==> forall i :: 0 <= i < 4 ==> TagByte(ToggleDefault(t), i) == TagByte(t, i) ^ 0x20
    ensures t & 0xDFDF_DFDF != DefaultScript ==> ToggleDefault(t) == t
  {
  }

  /** A toggled tag is again one equal to DFLT ignoring case, so toggling twice restores it. */
  lemma ToggleDefaultInvolution(t: Tag)
    ensures ToggleDefault(ToggleDefault(t)) == t
  {
  }

  /** Requesting "dflt" through a lower-cased subtag gives the DFLT script tag, and back. */
  lemma ToggleDefaultTags()
    ensures ToggleDefault(DefaultLanguage) == DefaultScript
    ensures ToggleDefault(DefaultScript) == DefaultLanguage
  {
  }

  /** The end of the run of alphanumerics at `p` onwards, at most 4 past `at`. */
  function AlnumRun(s: string, at: int, p: int): (e: int)
    requires at <= p <= at + 4
    ensures p <= e <= at + 4
    ensures forall q :: p <= q < e ==> IsAlnum(At(s, q))
    ensures e < at + 4 ==> !IsAlnum(At(s, e))
    decreases at + 4 - p
  {
    if p < at + 4 && IsAlnum(At(s, p)) then AlnumRun(s, at, p + 1) else p
  }

  /** Byte `p` of a name tag spelt at `at`..`e`: the normalised character, or a space after the name. */
  function NameByte(s: string, e: int, n: Normalize, p: int): bv8
    requires p < e ==> IsAlnum(At(s, p))
  {
    if p < e then Norm(n, At(s, p)) as bv8 else ' ' as bv8
  }

  /** The tag spelt by the characters at `at`..`e`, normalised and padded with spaces. */
  function NameTag(s: string, at: int, e: int, n: Normalize): (t: Tag)
    requires at <= e <= at + 4 && forall q :: at <= q < e ==> IsAlnum(At(s, q))
    ensures TagByte(t, 0) == NameByte(s, e, n, at) && TagByte(t, 1) == NameByte(s, e, n, at + 1)
    ensures TagByte(t, 2) == NameByte(s, e, n, at + 2) && TagByte(t, 3) == NameByte(s, e, n, at + 3)
  {
    NewTag(NameByte(s, e, n, at), NameByte(s, e, n, at + 1), NameByte(s, e, n, at + 2), NameByte(s, e, n, at + 3))
  }

  /** The end of the run of hexadecimal digits at `p` onwards, at most 8 past `at`. */
  function HexRun(s: string, at: int, p: int): (e: int)
    requires at <= p <= at + 8
    ensures p <= e <= at + 8
    ensures forall q :: p <= q < e ==> IsHex(At(s, q))
    ensures e < at + 8 ==> !IsHex(At(s, e))
    decreases at + 8 - p
  {
    if p < at + 8 && IsHex(At(s, p)) then HexRun(s, at, p + 1) else p
  }

  /** The byte written as the two hexadecimal digits at `p`. */
  function HexByte(s: string, p: int): bv8
    requires IsHex(At(s, p)) && IsHex(At(s, p + 1))
  {
    (HexValue(At(s, p)) << 4) | HexValue(At(s, p + 1))
  }

  /** The tag written as the 8 hexadecimal digits at `at`. */
  function HexTag(s: string, at: int): Tag
    requires forall q :: at <= q < at + 8 ==> IsHex(At(s, q))
  {
    NewTag(HexByte(s, at), HexByte(s, at + 2), HexByte(s, at + 4), HexByte(s, at + 6))
  }

  /**
   * The tag a private-use subtag requests after `prefix`: none when the
   * prefix is absent; after '-', a tag spelt in 8 hexadecimal digits; else
   * up to 4 alphanumerics, normalised and padded with spaces, none when there
   * is not one. DFLT in any case is toggled.
   */
  function PrivateUseOf(sub: string, prefix: string, n: Normalize): (r: Option<Tag>)
    ensures Find(sub, prefix, 0) == -1 ==> r.None?
    ensures r.Some? <==> SubtagTag(sub, prefix, n).Some?
    ensures r.Some? ==> r.value == ToggleDefault(SubtagTag(sub, prefix, n).value)
  {
    match SubtagTag(sub, prefix, n)
    case None => None
    case Some(t) => Some(ToggleDefault(t))
  }

  /** The tag a private-use subtag spells, before `DFLT` is toggled. */
  function SubtagTag(sub: string, prefix: string, n: Normalize): Option<Tag>
  {
    var p := Find(sub, prefix, 0);
    if p == -1 then None
    else
      var at := p + |prefix|;
      if At(sub, at) == '-' then HexSubtag(sub, at + 1) else NameSubtag(sub, at, n)
  }

  /** A tag spelt in 8 hexadecimal digits at `at`; none when there are fewer. */
  function HexSubtag(sub: string, at: int): Option<Tag>
  {
    if HexRun(sub, at, at) == at + 8 then Some(HexTag(sub, at)) else None
  }

  /** A tag spelt by the alphanumerics at `at`, normalised; none when there is not one. */
  function NameSubtag(sub: string, at: int, n: Normalize): Option<Tag>
  {
    var e := AlnumRun(sub, at, at);
    if e == at then None else Some(NameTag(sub, at, e, n))
  }

  /** The run of alphanumerics at `at` ends at `e`: the unique end `AlnumRun` finds. */
  lemma {:induction false} AlnumRunEnds(s: string, at: int, p: int, e: int)
    requires at <= p <= e <= at + 4
    requires forall q :: p <= q < e ==> IsAlnum(At(s, q))
    requires e < at + 4 ==> !IsAlnum(At(s, e))
    ensures AlnumRun(s, at, p) == e
    decreases e - p
  {
    if p < e {
      AlnumRunEnds(s, at, p + 1, e);
    }
  }

  predicate AllHex(s: string, from: int, to: int)
  {
    forall q :: from <= q < to ==> IsHex(At(s, q))
  }

  /** Fills `buf` pair by pair from the 8 hexadecimal digits at `s`; fails at the first non-digit. */
  method ReadHexTag(sub: string, s: int, buf: array<bv8>) returns (ok: bool)
    requires buf.Length == 4
    modifies buf
    ensures HexSubtag(sub, s) == if ok then Some(NewTag(buf[0], buf[1], buf[2], buf[3])) else None
  {
    var j := 0;
    while j < 4
      invariant 0 <= j <= 4
      invariant AllHex(sub, s, s + 2 * j)
      invariant forall k :: 0 <= k < j ==> buf[k] == HexByte(sub, s + 2 * k)
    {
      if !(IsHex(At(sub, s + 2 * j)) && IsHex(At(sub, s + 2 * j + 1))) {
        assert HexRun(sub, s, s) != s + 8;
        return false;
      }
      buf[j] := HexByte(sub, s + 2 * j);
      j := j + 1;
    }
    assert HexRun(sub, s, s) == s + 8;
    ok := true;
  }

  /**
   * Fills `buf` with the normalised alphanumerics at `s` (at most 4), then
   * spaces; fails when there is not one.
   */
  method ReadNameTag(sub: string, s: int, n: Normalize, buf: array<bv8>) returns (ok: bool)
    requires buf.Length == 4
    modifies buf
    ensures NameSubtag(sub, s, n) == if ok then Some(NewTag(buf[0], buf[1], buf[2], buf[3])) else None
  {
    var i := 0;
    while i < 4 && IsAlnum(At(sub, s + i))
      invariant 0 <= i <= 4
      invariant forall q :: s <= q < s + i ==> IsAlnum(At(sub, q))
      invariant forall k :: 0 <= k < i ==> buf[k] == NameByte(sub, s + i, n, s + k)
    {
      buf[i] := Norm(n, At(sub, s + i)) as bv8;
      i := i + 1;
    }
    AlnumRunEnds(sub, s, s, s + i);
    if i == 0 {
      return false;
    }
    var e := s + i;
    while i < 4
      invariant e - s <= i <= 4
      invariant forall k :: 0 <= k < i ==> buf[k] == NameByte(sub, e, n, s + k)
    {
      buf[i] := ' ' as bv8;
      i := i + 1;
    }
    ok := true;
  }

  /**
   * `parse_private_use_subtag`, with every read past the end of the string
   * seeing NUL: the tag (0 when none) and whether one was found.
   */
  method ParsePrivateUseSubtag(sub: string, prefix: string, n: Normalize) returns (tag: Tag, ok: bool)
    ensures ok <==> PrivateUseOf(sub, prefix, n).Some?
    ensures ok ==> tag == PrivateUseOf(sub, prefix, n).value
    ensures !ok ==> tag == 0
  {
    var s := Find(sub, prefix, 0);
    if s == -1 {
      return 0, false;
    }
    var buf := new bv8[4];
    s := s + |prefix|;
    if At(sub, s) == '-' {
      ok := ReadHexTag(sub, s + 1, buf);
    } else {
      ok := ReadNameTag(sub, s, n, buf);
    }
    if !ok {
      return 0, false;
    }
    tag := ToggleDefault(NewTag(buf[0], buf[1], buf[2], buf[3]));
  }

  // ---------------------------------------------------------------- as written

  /**
   * `parse_private_use_subtag` as written in Go. Reading the character after
   * the prefix panics when the prefix ends the string. After '-', `hex.Decode`
   * into the 4-byte buffer returns the number of bytes decoded, never 8, so
   * the function fails, and it panics on a fifth valid pair of digits, which
   * it would write past the buffer. The alphanumeric loop panics when the
   * string ends before 4 characters or a non-alphanumeric.
   */
  function PrivateUseAsWritten(sub: string, prefix: string, n: Normalize): Outcome<(Tag, bool)>
  {
    var p := Find(sub, prefix, 0);
    if p == -1 then Done((0, false))
    else
      var at := p + |prefix|;
      if at >= |sub| then Panic
      else if sub[at] == '-' then
        if AllHex(sub, at + 1, at + 11) then Panic else Done((0, false))
      else
        var e := AlnumRun(sub, at, at);
        if e < at + 4 && e >= |sub| then Panic
        else
          match NameSubtag(sub, at, n)
          case None => Done((0, false))
          case Some(t) => Done((ToggleDefault(t), true))
  }

  /** The prefix is found and followed by '-': the hexadecimal form. */
  predicate HexForm(sub: string, prefix: string)
  {
    Find(sub, prefix, 0) != -1 && At(sub, Find(sub, prefix, 0) + |prefix|) == '-'
  }

  /**
   * Off the hexadecimal form, whenever the code as written does not panic it
   * returns what `PrivateUseOf` describes.
   */
  lemma AsWrittenAgrees(sub: string, prefix: string, n: Normalize)
    requires !HexForm(sub, prefix) && PrivateUseAsWritten(sub, prefix, n).Done?
    ensures PrivateUseAsWritten(sub, prefix, n).value ==
      match PrivateUseOf(sub, prefix, n)
      case None => (0, false)
      case Some(t) => (t, true)
  {
  }

  /**
   * The hexadecimal form as written never yields a tag, where 8 digits spell
   * one: `hex.Decode` into 4 bytes cannot report 8.
   */
  lemma HexFormLost(sub: string, prefix: string, n: Normalize)
    requires HexForm(sub, prefix)
    requires AllHex(sub, Find(sub, prefix, 0) + |prefix| + 1, Find(sub, prefix, 0) + |prefix| + 9)
    ensures PrivateUseOf(sub, prefix, n) == Some(ToggleDefault(HexTag(sub, Find(sub, prefix, 0) + |prefix| + 1)))
    ensures PrivateUseAsWritten(sub, prefix, n) in {Panic, Done((0, false))}
  {
    var at := Find(sub, prefix, 0) + |prefix| + 1;
    assert HexRun(sub, at, at) == at + 8;
  }

  /**
   * A subtag of fewer than 4 alphanumerics that ends the string (as in
   * "x-hbscab") makes the code as written read past the end, where the
   * subtag names a tag.
   */
  lemma ShortNamePanics(sub: string, prefix: string, n: Normalize)
    requires Find(sub, prefix, 0) != -1
    requires Find(sub, prefix, 0) + |prefix| < |sub| < Find(sub, prefix, 0) + |prefix| + 4
    requires forall q :: Find(sub, prefix, 0) + |prefix| <= q < |sub| ==> IsAlnum(sub[q])
    ensures PrivateUseAsWritten(sub, prefix, n) == Panic
    ensures PrivateUseOf(sub, prefix, n).Some?
  {
    var at := Find(sub, prefix, 0) + |prefix|;
    forall q | at <= q < |sub| ensures IsAlnum(At(sub, q)) {
      assert At(sub, q) == sub[q];
    }
    AlnumRunEnds(sub, at, at, |sub|);
  }

  /** A prefix that ends the string makes the code as written read past it. */
  lemma PrefixAtEndPanics(sub: string, prefix: string, n: Normalize)
    requires Find(sub, prefix, 0) != -1 && Find(sub, prefix, 0) + |prefix| == |sub|
    ensures PrivateUseAsWritten(sub, prefix, n) == Panic
    ensures PrivateUseOf(sub, prefix, n) == None
  {
    AlnumRunEnds(sub, |sub|, |sub|, |sub|);
  }

  // ---------------------------------------------------------------- scanning a language tag

  /** Position `p` holds a one-character subtag: '-' before it and '-' after it. */
  predicate Singleton(lang: string, p: int)
  {
    1 <= p < |lang| && lang[p - 1] == '-' && At(lang, p + 1) == '-'
  }

  /**
   * The scan loop of `hb_ot_tags_from_script_and_language` from position
   * `s` on: `limit` becomes the position before the first singleton, and the
   * scan stops at the first 'x' singleton, the private-use subtag. Reads past
   * the end see NUL.
   */
  function ScanFrom(lang: string, s: int, limit: int): (string, int)
    requires 1 <= s <= |lang|
    decreases |lang| - s
  {
    if s == |lang| then ("", if limit == -1 then s else limit)
    else if lang[s - 1] == '-' && At(lang, s + 1) == '-' then
      if lang[s] == 'x' then (lang[s..], if limit == -1 then s - 1 else limit)
      else ScanFrom(lang, s + 1, if limit == -1 then s - 1 else limit)
    else ScanFrom(lang, s + 1, limit)
  }

  /**
   * The private-use subtag and the length of the part before the first
   * singleton of a non-empty language tag; a tag that is all private use
   * ("x-...") is its own subtag, with limit -1.
   */
  function ScanOf(lang: string): (string, int)
    requires |lang| >= 1
  {
    if lang[0] == 'x' && At(lang, 1) == '-' then (lang, -1) else ScanFrom(lang, 1, -1)
  }

  /**
   * `lim` is the position of the '-' before the first singleton (the length
   * when there is none), and `sub` is the suffix from the first 'x'
   * singleton, or empty when there is none.
   */
  ghost predicate ScanFinds(lang: string, sub: string, lim: int)
  {
    && 0 <= lim <= |lang|
    && (lim < |lang| ==> Singleton(lang, lim + 1))
    && (forall p :: 1 <= p <= lim ==> !Singleton(lang, p))
    && (sub == "" ==> forall p :: 1 <= p < |lang| && Singleton(lang, p) ==> lang[p] != 'x')
    && (sub != "" ==>
          exists p :: Singleton(lang, p) && lang[p] == 'x' && sub == lang[p..] &&
            forall q :: 1 <= q < p && Singleton(lang, q) ==> lang[q] != 'x')
  }

  /** What the scan keeps, from `s` on. */
  lemma {:induction false} ScanFromMeaning(lang: string, s: int, limit: int)
    requires 1 <= s <= |lang|
    requires limit == -1 ==> forall p :: 1 <= p < s ==> !Singleton(lang, p)
    requires limit != -1 ==> limit + 1 < s && Singleton(lang, limit + 1) && forall p :: 1 <= p <= limit ==> !Singleton(lang, p)
    requires forall p :: 1 <= p < s && Singleton(lang, p) ==> lang[p] != 'x'
    ensures var (sub, lim) := ScanFrom(lang, s, limit); ScanFinds(lang, sub, lim)
    decreases |lang| - s
  {
    if s == |lang| {
    } else if lang[s - 1] == '-' && At(lang, s + 1) == '-' {
      assert Singleton(lang, s);
      if lang[s] == 'x' {
        var (sub, lim) := ScanFrom(lang, s, limit);
        assert sub == lang[s..];
      } else {
        ScanFromMeaning(lang, s + 1, if limit == -1 then s - 1 else limit);
      }
    } else {
      assert !Singleton(lang, s);
      ScanFromMeaning(lang, s + 1, limit);
    }
  }

  /**
   * Unless the tag is all private use, the limit is the position of the '-'
   * before the first singleton (the length when there is none), and the
   * subtag is the suffix from the first 'x' singleton, or empty.
   */
  lemma ScanMeaning(lang: string)
    requires |lang| >= 1 && !(lang[0] == 'x' && At(lang, 1) == '-')
    ensures var (sub, lim) := ScanOf(lang); ScanFinds(lang, sub, lim)
  {
    ScanFromMeaning(lang, 1, -1);
  }

  /** The scan loop: `s` walks the tag, `limit` is set once, and the loop breaks at "-x-". */
  method ScanLanguage(lang: string) returns (sub: string, limit: int)
    requires |lang| >= 1
    ensures (sub, limit) == ScanOf(lang)
  {
    limit := -1;
    sub := "";
    if lang[0] == 'x' && At(lang, 1) == '-' {
      sub := lang;
      return;
    }
    var s := 1;
    while s < |lang|
      invariant 1 <= s <= |lang|
      invariant ScanFrom(lang, s, limit) == ScanFrom(lang, 1, -1)
      decreases |lang| - s
    {
      if lang[s - 1] == '-' && At(lang, s + 1) == '-' {
        if lang[s] == 'x' {
          sub := lang[s..];
          if limit == -1 {
            limit := s - 1;
          }
          return;
        } else if limit == -1 {
          limit := s - 1;
        }
      }
      s := s + 1;
    }
    if limit == -1 {
      limit := s;
    }
  }

  /** The scan as written in Go: `lang_str[1]` and `lang_str[s+1]` are read unguarded. */
  function ScanAsWritten(lang: string): Outcome<(string, int)>
    requires |lang| >= 1
  {
    if lang[0] == 'x' then
      if |lang| < 2 then Panic
      else if lang[1] == '-' then Done((lang, -1))
      else ScanFromAsWritten(lang, 1, -1)
    else ScanFromAsWritten(lang, 1, -1)
  }

  function ScanFromAsWritten(lang: string, s: int, limit: int): Outcome<(string, int)>
    requires 1 <= s <= |lang|
    decreases |lang| - s
  {
    if s == |lang| then Done(("", if limit == -1 then s else limit))
    else if lang[s - 1] == '-' then
      if s + 1 >= |lang| then Panic
      else if lang[s + 1] == '-' then
        if lang[s] == 'x' then Done((lang[s..], if limit == -1 then s - 1 else limit))
        else ScanFromAsWritten(lang, s + 1, if limit == -1 then s - 1 else limit)
      else ScanFromAsWritten(lang, s + 1, limit)
    else ScanFromAsWritten(lang, s + 1, limit)
  }

  /** Whenever the scan as written does not panic, it finds what `ScanOf` describes. */
  lemma {:induction false} ScanFromAgrees(lang: string, s: int, limit: int)
    requires 1 <= s <= |lang| && ScanFromAsWritten(lang, s, limit).Done?
    ensures ScanFromAsWritten(lang, s, limit).value == ScanFrom(lang, s, limit)
    decreases |lang| - s
  {
    if s < |lang| {
      if lang[s - 1] == '-' && lang[s + 1] == '-' {
        if lang[s] != 'x' {
          ScanFromAgrees(lang, s + 1, if limit == -1 then s - 1 else limit);
        }
      } else {
        ScanFromAgrees(lang, s + 1, limit);
      }
    }
  }

  lemma ScanAgrees(lang: string)
    requires |lang| >= 1 && ScanAsWritten(lang).Done?
    ensures ScanAsWritten(lang).value == ScanOf(lang)
  {
    if !(lang[0] == 'x' && lang[1] == '-') {
      ScanFromAgrees(lang, 1, -1);
    }
  }

  /** Both scans pass over characters that are not '-' unchanged. */
  lemma {:induction false} ScanSkips(lang: string, s: int, t: int, limit: int)
    requires 1 <= s <= t <= |lang|
    requires forall q :: s - 1 <= q < t - 1 ==> lang[q] != '-'
    ensures ScanFrom(lang, s, limit) == ScanFrom(lang, t, limit)
    ensures ScanFromAsWritten(lang, s, limit) == ScanFromAsWritten(lang, t, limit)
    decreases t - s
  {
    if s < t {
      ScanSkips(lang, s + 1, t, limit);
    }
  }

  /** The one-character tag "x" makes the code as written read `lang_str[1]`. */
  lemma SoleXPanics()
    ensures ScanAsWritten("x") == Panic
    ensures ScanOf("x") == ("", 1)
  {
  }

  /**
   * A tag ending in a one-character subtag, such as "en-a", makes the code as
   * written read one past the end; the tag has no singleton, so the limit is
   * its length.
   */
  lemma TrailingSingletonPanics(a: string, c: char)
    requires '-' !in a && a != "x"
    ensures ScanAsWritten(a + "-" + [c]) == Panic
    ensures ScanOf(a + "-" + [c]) == ("", |a| + 2)
  {
    var lang := a + "-" + [c];
    assert lang[|a|] == '-' && lang[|a| + 1] == c;
    forall q | 0 <= q < |a| ensures lang[q] != '-' {
      assert lang[q] == a[q];
    }
    ScanSkips(lang, 1, |a| + 1, -1);
    if a != [] {
      assert !(lang[0] == 'x' && lang[1] == '-');
    }
  }

  // ---------------------------------------------------------------- script and language tags

  /**
   * `hb_ot_tags_from_script_and_language`. The table search of
   * `hb_ot_tags_from_language` is the parameter `fromLanguage`, given the
   * tag and the limit. A "-hbsc" private-use subtag overrides the script
   * tags and a "-hbot" subtag the language tags; an empty language gives no
   * language tags.
   */
  method TagsFromScriptAndLanguage(script: Script, language: string, fromLanguage: (string, int) -> seq<Tag>)
    returns (scriptTags: seq<Tag>, languageTags: seq<Tag>)
    ensures language == "" ==> scriptTags == AllTagsOf(script) && languageTags == []
    ensures language != "" ==>
      var (sub, limit) := ScanOf(language);
      && scriptTags == (match PrivateUseOf(sub, "-hbsc", ToLower) case Some(t) => [t] case None => AllTagsOf(script))
      && languageTags == (match PrivateUseOf(sub, "-hbot", ToUpper) case Some(t) => [t] case None => fromLanguage(language, limit))
  {
    scriptTags, languageTags := [], [];
    if language != "" {
      var sub, limit := ScanLanguage(language);
      var s, hasScript := ParsePrivateUseSubtag(sub, "-hbsc", ToLower);
      if hasScript {
        scriptTags := [s];
      }
      var l, hasLanguage := ParsePrivateUseSubtag(sub, "-hbot", ToUpper);
      if hasLanguage {
        languageTags := languageTags + [l];
      } else {
        languageTags := fromLanguage(language, limit);
      }
    }
    if |scriptTags| == 0 {
      scriptTags := AllTagsFromScript(script);
    }
  }
}
