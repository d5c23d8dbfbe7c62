/**
  `os.path.splitext` on a POSIX system (`posixpath.splitext`): the extension
  is the text from the last '.' of the last path component on, unless every
  character of that component before the dot is itself a dot (".bashrc" has
  no extension).
 */
module PosixPath {

  /** `s.rfind(c)`: the index of the last `c` in `s`, or -1 when there is none. */
  function RFind(s: string, c: char): (r: int)
    ensures -1 <= r < |s|
    ensures r == -1 <==> c !in s
    ensures r >= 0 ==> s[r] == c
    ensures forall k :: r < k < |s| ==> s[k] != c
  {
    if s == [] then -1
    else if s[|s| - 1] == c then |s| - 1
    else
      var r := RFind(s[..|s| - 1], c);
      assert forall k :: r < k < |s| - 1 ==> s[..|s| - 1][k] == s[k];
      r
  }

  /** Whether `s[lo..hi]` holds some character other than '.'. */
  predicate HasNonDot(s: string, lo: int, hi: int)
    requires 0 <= lo <= hi <= |s|
  {
    exists k :: lo <= k < hi && s[k] != '.'
  }

  /**
    `splitext(p)`: `(root, ext)`. There is an extension when the last '.'
    comes after the last '/' and the component before it is not all dots.
   */
  function SplitExt(p: string): (parts: (string, string))
  {
    var sep := RFind(p, '/');
    var dot := RFind(p, '.');
    if dot > sep && HasNonDot(p, sep + 1, dot) then (p[..dot], p[dot..]) else (p, "")
  }

  /** `splitext(p)[0] + '.html'`: the output name with its extension replaced. */
  function HtmlPath(p: string): string
  {
    SplitExt(p).0 + ".html"
  }

  /**
    The two parts put back together give the path; an extension is one dot
    followed by text without a dot or a slash.
   */
  lemma SplitExtParts(p: string)
    ensures SplitExt(p).0 + SplitExt(p).1 == p
    ensures var ext := SplitExt(p).1;
      ext == [] || (ext[0] == '.' && '.' !in ext[1..] && '/' !in ext)
  {
    var sep := RFind(p, '/');
    var dot := RFind(p, '.');
    if dot > sep && HasNonDot(p, sep + 1, dot) {
      assert p[..dot] + p[dot..] == p;
      var ext := p[dot..];
      forall i | 0 <= i < |ext|
        ensures ext[i] != '/' && (i > 0 ==> ext[i] != '.')
      {
        assert ext[i] == p[dot + i];
      }
    }
  }

  /** The basename of `p` (the text after its last '/') has a character other than '.'. */
  predicate NamedBase(p: string)
  {
    HasNonDot(p, RFind(p, '/') + 1, |p|)
  }

  /** Appending text with neither '/' nor '.' in it keeps the last '/'. */
  lemma RFindAppend(s: string, t: string, c: char)
    requires c !in t
    ensures RFind(s + t, c) == RFind(s, c)
  {
    var r := RFind(s + t, c);
    var q := RFind(s, c);
    if q >= 0 {
      assert (s + t)[q] == c;
    }
    if 0 <= r < |s| {
      assert (s + t)[r] == s[r];
    }
  }

  /**
    The derived HTML name splits again into the same root and ".html"
    exactly when that root's basename has a character other than '.'; a root
    such as "" or ".." instead gives a whole new name with no extension.
   */
  lemma HtmlPathResplit(p: string)
    ensures var root := SplitExt(p).0;
      SplitExt(HtmlPath(p)) == (if NamedBase(root) then (root, ".html") else (HtmlPath(p), ""))
  {
    var root := SplitExt(p).0;
    var h := HtmlPath(p);
    HtmlPathDot(root);
    var sep := RFind(root, '/');
    if NamedBase(root) {
      var k :| sep + 1 <= k < |root| && root[k] != '.';
      assert h[k] == root[k];
      assert HasNonDot(h, sep + 1, |root|);
    } else {
      forall k | sep + 1 <= k < |root|
        ensures h[k] == '.'
      {
        assert h[k] == root[k];
      }
    }
  }

  /** In `root + ".html"` the last '.' is the one added, and the last '/' is the root's. */
  lemma HtmlPathDot(root: string)
    ensures var h := root + ".html";
      && RFind(h, '/') == RFind(root, '/')
      && RFind(h, '.') == |root|
      && h[..|root|] == root && h[|root|..] == ".html"
  {
    var h := root + ".html";
    ExtensionChars();
    RFindAppend(root, ".html", '/');
    Concat3(root, ".", "html");
    RFindAppend(root + ".", "html", '.');
    assert RFind(root + ".", '.') == |root|;
    assert h[..|root|] == root;
  }

  lemma ExtensionChars()
    ensures '/' !in ".html" && '.' !in "html"
    ensures ".html" == "." + "html"
  {
    assert ".html" == ['.', 'h', 't', 'm', 'l'] && "html" == ".html"[1..];
  }

  lemma Concat3(a: string, b: string, c: string)
    ensures a + (b + c) == (a + b) + c
  {
  }

  /** "r.json" becomes "r.html". */
  lemma HtmlPathReplacesExtension()
    ensures SplitExt("r.json") == ("r", ".json")
    ensures HtmlPath("r.json") == "r.html"
  {
    var p := "r.json";
    assert p[1] == '.' && p[0] != '.';
    assert RFind(p, '.') == 1;
    assert RFind(p, '/') == -1;
    assert HasNonDot(p, 0, 1);
    assert p[..1] == "r" && p[1..] == ".json";
  }

  /** "r" becomes "r.html". */
  lemma HtmlPathAddsExtension()
    ensures SplitExt("r") == ("r", "")
    ensures HtmlPath("r") == "r.html"
  {
    assert RFind("r", '.') == -1;
  }

  /** ".r" is a hidden file without extension, so it becomes ".r.html". */
  lemma HtmlPathHiddenFile()
    ensures SplitExt(".r") == (".r", "")
    ensures HtmlPath(".r") == ".r.html"
  {
    var p := ".r";
    assert p[0] == '.' && p[1] != '.';
    assert RFind(p, '.') == 0;
    assert RFind(p, '/') == -1;
  }

  /** Only the last component counts: "out.d/r" becomes "out.d/r.html". */
  lemma HtmlPathDottedDirectory()
    ensures SplitExt("out.d/r") == ("out.d/r", "")
    ensures HtmlPath("out.d/r") == "out.d/r.html"
  {
    var p := "out.d/r";
    assert p[5] == '/' && p[6] != '/';
    assert RFind(p, '/') == 5;
    assert p[3] == '.' && p[4] != '.' && p[5] != '.' && p[6] != '.';
    assert RFind(p, '.') == 3;
  }
}
