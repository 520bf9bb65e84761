/**
 * The call-site key PerformanceNode (Performance.cpp, Performance.h):
 * base-name extraction, the key order used by the registry map, and the
 * identity that ignores the description.
 */
module CallSite {
  import opened Wrappers

  /** A C++ `char`: a byte, modelled as a character whose code is below 256. */
  type Char8 = c: char | c as int < 256

  /** The bytes of a std::string. */
  type Bytes = seq<Char8>

  /**
   * std::string's `<`: lexicographic on the bytes compared as unsigned
   * values, a proper prefix ordered first.
   */
  predicate StrLess(a: Bytes, b: Bytes)
    decreases |a|
  {
    if a == [] then b != []
    else if b == [] then false
    else if a[0] < b[0] then true
    else if a[0] > b[0] then false
    else StrLess(a[1..], b[1..])
  }

  lemma {:induction false} StrLessIrreflexive(a: Bytes)
    ensures !StrLess(a, a)
    decreases |a|
  {
    if a != [] {
      StrLessIrreflexive(a[1..]);
    }
  }

  lemma {:induction false} StrLessTransitive(a: Bytes, b: Bytes, c: Bytes)
    requires StrLess(a, b) && StrLess(b, c)
    ensures StrLess(a, c)
    decreases |a|
  {
    if a != [] && a[0] == b[0] && b[0] == c[0] {
      StrLessTransitive(a[1..], b[1..], c[1..]);
    }
  }

  /** Any two byte strings are equal or ordered one way. */
  lemma {:induction false} StrLessTotal(a: Bytes, b: Bytes)
    ensures a == b || StrLess(a, b) || StrLess(b, a)
    decreases |a|
  {
    if a != [] && b != [] && a[0] == b[0] {
      StrLessTotal(a[1..], b[1..]);
      if a[1..] == b[1..] {
        assert a == [a[0]] + a[1..] && b == [b[0]] + b[1..];
      }
    }
  }

  lemma {:induction false} StrLessAsymmetric(a: Bytes, b: Bytes)
    requires StrLess(a, b)
    ensures !StrLess(b, a)
    decreases |a|
  {
    if a != [] && a[0] == b[0] {
      StrLessAsymmetric(a[1..], b[1..]);
    }
  }

  /**
   * std::string::rfind of one character: the position of its last
   * occurrence, or None for string::npos.
   */
  function RFind(s: Bytes, ch: Char8): (r: Option<nat>)
    ensures r.Some? ==> r.value < |s| && s[r.value] == ch
                        && forall k :: r.value < k < |s| ==> s[k] != ch
    ensures r.None? ==> forall k :: 0 <= k < |s| ==> s[k] != ch
    decreases |s|
  {
    if s == [] then None
    else if s[|s| - 1] == ch then Some(|s| - 1)
    else RFind(s[..|s| - 1], ch)
  }

  /** GetFileName: the part of a path after its last '/', or the whole path. */
  function GetFileName(path: Bytes): (r: Bytes)
    ensures '/' !in r
    ensures |r| <= |path| && forall k :: 0 <= k < |r| ==> r[k] == path[|path| - |r| + k]
    ensures '/' !in path ==> r == path
    ensures '/' in path ==> |r| < |path| && path[|path| - |r| - 1] == '/'
  {
    match RFind(path, '/')
    case None => path
    case Some(pos) => path[pos + 1..]
  }

  /** PerformanceNode: the base name of the file, the function, the line and a description. */
  datatype Node = Node(fileName: Bytes, funcName: Bytes, line: int, desc: Bytes)

  /** The PerformanceNode constructor: only the base name of the path is kept. */
  function MakeNode(path: Bytes, funcName: Bytes, line: int, desc: Bytes): (n: Node)
    ensures '/' !in n.fileName
    ensures n.funcName == funcName && n.line == line && n.desc == desc
    ensures |n.fileName| <= |path|
    ensures forall k :: 0 <= k < |n.fileName| ==> n.fileName[k] == path[|path| - |n.fileName| + k]
    ensures '/' !in path ==> n.fileName == path
    ensures |n.fileName| < |path| ==> path[|path| - |n.fileName| - 1] == '/'
  {
    Node(GetFileName(path), funcName, line, desc)
  }

  /** PerformanceNode::operator<, with its chain of early returns. */
  predicate Less(a: Node, b: Node)
    ensures Less(a, b) ==> a.line <= b.line
    ensures a.line < b.line ==> Less(a, b)
  {
    if a.line > b.line then false
    else if a.line < b.line then true
    else if StrLess(b.fileName, a.fileName) then false
    else if StrLess(a.fileName, b.fileName) then true
    else if StrLess(b.funcName, a.funcName) then false
    else if StrLess(a.funcName, b.funcName) then true
    else false
  }

  /** PerformanceNode::operator==: file name, function and line; never the description. */
  predicate Same(a: Node, b: Node)
    ensures Same(a, b) ==> !Less(a, b) && !Less(b, a)
  {
    StrLessIrreflexive(a.fileName);
    StrLessIrreflexive(a.funcName);
    a.fileName == b.fileName && a.funcName == b.funcName && a.line == b.line
  }

  /**
   * operator< is the lexicographic order on (line, file name, function):
   * line dominates, and the description plays no part.
   */
  lemma LessIsLexicographic(a: Node, b: Node)
    ensures Less(a, b) <==>
      a.line < b.line
      || (a.line == b.line && StrLess(a.fileName, b.fileName))
      || (a.line == b.line && a.fileName == b.fileName && StrLess(a.funcName, b.funcName))
  {
    StrLessTotal(a.fileName, b.fileName);
    if a.line == b.line && StrLess(a.fileName, b.fileName) {
      StrLessAsymmetric(a.fileName, b.fileName);
    }
    if a.line == b.line && a.fileName == b.fileName {
      StrLessIrreflexive(a.fileName);
      if StrLess(a.funcName, b.funcName) {
        StrLessAsymmetric(a.funcName, b.funcName);
      }
    }
  }

  lemma LessIrreflexive(a: Node)
    ensures !Less(a, a)
  {
    StrLessIrreflexive(a.fileName);
    StrLessIrreflexive(a.funcName);
  }

  lemma LessTransitive(a: Node, b: Node, c: Node)
    requires Less(a, b) && Less(b, c)
    ensures Less(a, c)
  {
    LessIsLexicographic(a, b);
    LessIsLexicographic(b, c);
    LessIsLexicographic(a, c);
    if a.line == b.line == c.line {
      if StrLess(a.fileName, b.fileName) && StrLess(b.fileName, c.fileName) {
        StrLessTransitive(a.fileName, b.fileName, c.fileName);
      } else if StrLess(a.funcName, b.funcName) && StrLess(b.funcName, c.funcName) {
        StrLessTransitive(a.funcName, b.funcName, c.funcName);
      }
    }
  }

  /**
   * Exactly one of a < b, b < a and a == b holds, so operator== is exactly
   * "neither is less": the equivalence std::map uses for its keys.
   */
  lemma LessTrichotomy(a: Node, b: Node)
    ensures Same(a, b) <==> !Less(a, b) && !Less(b, a)
    ensures !(Less(a, b) && Less(b, a))
  {
    LessIsLexicographic(a, b);
    LessIsLexicographic(b, a);
    StrLessTotal(a.fileName, b.fileName);
    StrLessTotal(a.funcName, b.funcName);
    if Less(a, b) && Less(b, a) {
      LessTransitive(a, b, a);
      LessIrreflexive(a);
    }
    if Same(a, b) {
      LessIrreflexive(a);
      assert Less(a, b) == Less(a, a) && Less(b, a) == Less(a, a);
    }
  }

  /** Sites on lines 10, 5 and 5 in b.c, a.c and a.c: line dominates file. */
  lemma LineDominatesFile()
    ensures Less(Node("a.c", "f", 5, "x"), Node("b.c", "f", 10, "y"))
    ensures Less(Node("z.c", "f", 5, "x"), Node("a.c", "f", 10, "y"))
    ensures Same(Node("a.c", "f", 5, "first"), Node("a.c", "f", 5, "second"))
  {
  }
}
