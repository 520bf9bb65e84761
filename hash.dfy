/**
 * BKDRHash and PerformanceNodeHash (Performance.h): the string hash the
 * source provides for an unordered registry keyed by PerformanceNode.
 */
module NodeHash {
  import opened CallSite

  const Seed := 131

  /** 2^32: `unsigned int` arithmetic wraps modulo this. */
  const Word := 0x1_0000_0000

  /**
   * A `char` as it enters `hash * seed + c`: on a signed-char platform such
   * as x86 with gcc it is sign-extended to `int`, then converted to
   * `unsigned int`, so a byte of 128 or more adds `Word - 256` to it.
   */
  function Widen(c: Char8): (w: nat)
    ensures w < Word
  {
    if c as int < 128 then c as int else c as int - 256 + Word
  }

  /** The bytes a C-string walk sees: everything before the first NUL. */
  function CPrefix(s: Bytes): (r: Bytes)
    ensures |r| <= |s| && r == s[..|r|]
    ensures '\0' !in r
    ensures |r| < |s| ==> s[|r|] == '\0'
    decreases |s|
  {
    if s == [] || s[0] == '\0' then [] else [s[0]] + CPrefix(s[1..])
  }

  /** The unmasked hash: `hash = hash * 131 + c` over the bytes, modulo 2^32. */
  function Fold(s: Bytes): nat
    decreases |s|
  {
    if s == [] then 0 else (Fold(s[..|s| - 1]) * Seed + Widen(s[|s| - 1])) % Word
  }

  /**
   * The value BKDRHash returns for the C string held in `s`: the fold masked
   * with 0x7FFFFFFF, which for a value below 2^32 is its remainder modulo 2^31.
   */
  function HashOf(s: Bytes): nat {
    Fold(CPrefix(s)) % 0x8000_0000
  }

  /** A prefix that is free of NUL and ends at a NUL or at the end is the C string. */
  lemma {:induction false} CPrefixAt(s: Bytes, i: nat)
    requires i <= |s|
    requires forall k :: 0 <= k < i ==> s[k] != '\0'
    requires i == |s| || s[i] == '\0'
    ensures CPrefix(s) == s[..i]
  {
    if i > 0 {
      CPrefixAt(s[1..], i - 1);
      assert s[..i] == [s[0]] + s[1..][..i - 1];
    }
  }

  lemma FoldSnoc(s: Bytes, i: nat)
    requires i < |s|
    ensures Fold(s[..i + 1]) == (Fold(s[..i]) * Seed + Widen(s[i])) % Word
  {
    assert s[..i + 1][..i] == s[..i];
  }

  /** BKDRHash: walks the C string and masks the result to 31 bits. */
  method BKDRHash(str: Bytes) returns (h: nat)
    ensures h == HashOf(str)
    ensures h <= 0x7FFF_FFFF
  {
    var hash := 0;
    var i := 0;
    while i < |str| && str[i] != '\0'
      invariant 0 <= i <= |str|
      invariant forall k :: 0 <= k < i ==> str[k] != '\0'
      invariant hash == Fold(str[..i])
    {
      FoldSnoc(str, i);
      hash := (hash * Seed + Widen(str[i])) % Word;
      i := i + 1;
    }
    CPrefixAt(str, i);
    h := hash % 0x8000_0000;
  }

  /** `key += p._line` appends one char: the line truncated to its low byte. */
  function LineChar(line: int): Char8 {
    (line % 256) as char
  }

  /** The string PerformanceNodeHash hashes: function, then file name, then the line byte. */
  function Key(p: Node): Bytes {
    p.funcName + p.fileName + [LineChar(p.line)]
  }

  /** PerformanceNodeHash::operator(): builds the key with `+=` and hashes it. */
  method PerformanceNodeHash(p: Node) returns (h: nat)
    ensures h == HashOf(Key(p))
    ensures h <= 0x7FFF_FFFF
  {
    var key := p.funcName;
    key := key + p.fileName;
    key := key + [LineChar(p.line)];
    h := BKDRHash(key);
  }

  /** Nodes equal under operator== hash alike: the description never reaches the key. */
  lemma SameNodesHashAlike(a: Node, b: Node)
    requires Same(a, b)
    ensures HashOf(Key(a)) == HashOf(Key(b))
  {
  }

  /** A NUL-free head passes through the C-string walk whole. */
  lemma CPrefixOfClean(s: Bytes, t: Bytes)
    requires '\0' !in s
    ensures CPrefix(s + t) == s + CPrefix(t)
  {
    var p := CPrefix(t);
    var u := s + t;
    var i := |s| + |p|;
    forall k | 0 <= k < i ensures u[k] != '\0' {
      if k < |s| {
        assert u[k] == s[k] && s[k] in s;
      } else {
        assert u[k] == p[k - |s|] && p[k - |s|] in p;
      }
    }
    CPrefixAt(u, i);
    assert u[..i] == s + p;
  }

  /**
   * When the line is a multiple of 256 its byte is NUL and ends the C string,
   * so the line does not reach the hash at all: such lines collide.
   */
  lemma LineMultipleOf256IsIgnored(p: Node)
    requires '\0' !in p.funcName && '\0' !in p.fileName
    requires p.line % 256 == 0
    ensures CPrefix(Key(p)) == p.funcName + p.fileName
  {
    var s := p.funcName + p.fileName;
    assert '\0' !in s by {
      forall k | 0 <= k < |s| ensures s[k] != '\0' {
        if k < |p.funcName| {
          assert s[k] == p.funcName[k];
        } else {
          assert s[k] == p.fileName[k - |p.funcName|];
        }
      }
    }
    CPrefixOfClean(s, [LineChar(p.line)]);
    assert CPrefix([LineChar(p.line)]) == [];
    assert s + [] == s;
  }
}
