/** Host platform selection and the layout of an unpacked FMU (section 2.3 of FMI 2.0):
    `<path>/binaries/<platform>/<model><suffix>` and the resource directory `<path>/resources/`. */
module Platform {
  import opened Wrappers

  /** The three branches of the compile-time platform switch. */
  datatype Os = Windows | Apple | OtherUnix

  /** Size of a pointer on the host, in bytes (sizeof(void*)). */
  type PointerSize = n: nat | n == 4 || n == 8 witness 8

  /** An explicit stand-in for the compile-time host: operating system and pointer width.
      On Windows `_WIN64` is defined exactly for targets with 8-byte pointers. */
  datatype Host = Host(os: Os, pointerBytes: PointerSize)

  /** The platform directory under `binaries/`. Its round trip through ParseInfix shows that
      the directory names the operating system and the word size unambiguously. */
  function SystemInfix(h: Host): (r: string)
    ensures ParseInfix(r) == Some(h)
  {
    match h.os
    case Windows => if h.pointerBytes == 8 then "win64" else "win32"
    case Apple => if h.pointerBytes == 4 then "darwin32" else "darwin64"
    case OtherUnix => if h.pointerBytes == 4 then "linux32" else "linux64"
  }

  /** Reads a platform directory name back as a host; None for any other name. */
  function ParseInfix(s: string): Option<Host>
  {
    if s == "win32" then Some(Host(Windows, 4))
    else if s == "win64" then Some(Host(Windows, 8))
    else if s == "darwin32" then Some(Host(Apple, 4))
    else if s == "darwin64" then Some(Host(Apple, 8))
    else if s == "linux32" then Some(Host(OtherUnix, 4))
    else if s == "linux64" then Some(Host(OtherUnix, 8))
    else None
  }

  /** The shared-library file extension: it depends on the operating system only,
      and distinct operating systems get distinct extensions. */
  function DllSuffix(h: Host): (r: string)
    ensures SuffixOs(r) == Some(h.os)
  {
    match h.os
    case Windows => ".dll"
    case Apple => ".dylib"
    case OtherUnix => ".so"
  }

  function SuffixOs(s: string): Option<Os>
  {
    if s == ".dll" then Some(Windows)
    else if s == ".dylib" then Some(Apple)
    else if s == ".so" then Some(OtherUnix)
    else None
  }

  /** Location of the model's shared library inside the unpacked FMU. */
  function BinaryPath(path: string, name: string, h: Host): string
  {
    path + "/binaries/" + SystemInfix(h) + "/" + name + DllSuffix(h)
  }

  /** The resource directory, as the `file:` URI handed to the instance. */
  function ResourceLocation(path: string): string
  {
    "file:" + path + "/resources/"
  }

  /** No platform directory name contains a path separator. */
  lemma InfixHasNoSlash(h: Host)
    ensures '/' !in SystemInfix(h)
  {
  }

  /** The binary path is the base path, then `/binaries/`, then the platform directory,
      then `/`, then the model name and the library suffix. */
  lemma BinaryPathLayout(path: string, name: string, h: Host)
    ensures var p := BinaryPath(path, name, h);
      var b := |path| + 10;
      var e := b + |SystemInfix(h)|;
      && |p| == e + 1 + |name| + |DllSuffix(h)|
      && p[..|path|] == path
      && p[|path|..b] == "/binaries/"
      && p[b..e] == SystemInfix(h)
      && p[e] == '/'
      && p[e + 1..e + 1 + |name|] == name
      && p[e + 1 + |name|..] == DllSuffix(h)
  {
  }

  lemma CancelPrefix(a: string, x: string, y: string)
    requires a + x == a + y
    ensures x == y
  {
    assert x == (a + x)[|a|..];
    assert y == (a + y)[|a|..];
  }

  lemma CancelSuffix(x: string, y: string, b: string)
    requires x + b == y + b
    ensures x == y
  {
    assert x == (x + b)[..|x|];
    assert y == (y + b)[..|y|];
  }

  /** A word without '/' followed by '/' can be split off unambiguously. */
  lemma {:induction false} SplitAtSlash(w1: string, t1: string, w2: string, t2: string)
    requires '/' !in w1 && '/' !in w2
    requires w1 + "/" + t1 == w2 + "/" + t2
    ensures w1 == w2 && t1 == t2
  {
    var s1, s2 := w1 + "/" + t1, w2 + "/" + t2;
    if |w1| == 0 || |w2| == 0 {
      assert s1[0] == s2[0];
      assert t1 == s1[1..] && t2 == s2[1..];
    } else {
      assert s1[0] == w1[0] && s2[0] == w2[0];
      assert s1[1..] == w1[1..] + "/" + t1;
      assert s2[1..] == w2[1..] + "/" + t2;
      SplitAtSlash(w1[1..], t1, w2[1..], t2);
      assert w1 == [w1[0]] + w1[1..];
      assert w2 == [w2[0]] + w2[1..];
    }
  }

  /** Within one base path, the binary path determines the model name and the host:
      two different (name, host) pairs never share a library file. */
  lemma BinaryPathInjective(path: string, n1: string, h1: Host, n2: string, h2: Host)
    requires BinaryPath(path, n1, h1) == BinaryPath(path, n2, h2)
    ensures n1 == n2 && h1 == h2
  {
    var pre := path + "/binaries/";
    var i1, i2 := SystemInfix(h1), SystemInfix(h2);
    var t1, t2 := n1 + DllSuffix(h1), n2 + DllSuffix(h2);
    assert BinaryPath(path, n1, h1) == pre + (i1 + "/" + t1);
    assert BinaryPath(path, n2, h2) == pre + (i2 + "/" + t2);
    CancelPrefix(pre, i1 + "/" + t1, i2 + "/" + t2);
    InfixHasNoSlash(h1);
    InfixHasNoSlash(h2);
    SplitAtSlash(i1, t1, i2, t2);
    assert Some(h1) == ParseInfix(i1) == ParseInfix(i2) == Some(h2);
    CancelSuffix(n1, n2, DllSuffix(h1));
  }

  /** The resource URI determines the base path. */
  lemma ResourceLocationInjective(p1: string, p2: string)
    requires ResourceLocation(p1) == ResourceLocation(p2)
    ensures p1 == p2
  {
    assert p1 == ResourceLocation(p1)[5..|ResourceLocation(p1)| - 11];
    assert p2 == ResourceLocation(p2)[5..|ResourceLocation(p2)| - 11];
  }
}
