/** The older path normaliser (tmr/src/main/java/utilities/CommonServletUtility.java),
    which removes at most one '/' at each end. Its `split` and
    `buildTaskResponseObject` are the same as in the newer utility and are
    modelled there. */
module LegacyServletUtility {
  import opened Wrappers
  import opened JavaLang
  import ServletUtility

  /** Removes one leading '/', if there is one. */
  function DropLeadingSlash(s: string): string {
    if s != [] && s[0] == '/' then s[1..] else s
  }

  /** Once the early return is passed, the string the trailing-slash check
      indexes is not empty, so reading its last character is in bounds. */
  lemma LegacyTrailingIndexInBounds(v: string)
    requires !IsBlank(Trim(v)) && Trim(v) != "/"
    ensures |DropLeadingSlash(Trim(v))| > 0
  {
    var t := Trim(v);
    assert |t| > 0;
    assert |t| != 1 || t[0] != '/' || t == "/";
  }

  /** `getRequestUrlPathInfo` of the older utility: "" for null, blank or a lone
      "/"; otherwise trim, drop one leading '/', drop one trailing '/', trim. */
  function LegacyRequestUrlPathInfo(pathInfo: Option<string>): string {
    if pathInfo.None? || IsBlank(Trim(pathInfo.value)) || Trim(pathInfo.value) == "/" then ""
    else
      LegacyTrailingIndexInBounds(pathInfo.value);
      Trim(DropTrailingSlash(DropLeadingSlash(Trim(pathInfo.value))))
  }

  /** The older utility tests `trim().isBlank()`, the newer `isBlank()`: the same test. */
  lemma TrimmedBlankIsBlank(v: string)
    ensures IsBlank(Trim(v)) <==> IsBlank(v)
  {
    BlankIffTrimEmpty(v);
    TrimIdempotent(v);
    BlankIffTrimEmpty(Trim(v));
  }

  /** Null, blank and a lone "/" give "". */
  lemma LegacyBlankGivesEmpty(pathInfo: Option<string>)
    requires pathInfo.None? || IsBlank(pathInfo.value) || Trim(pathInfo.value) == "/"
    ensures LegacyRequestUrlPathInfo(pathInfo) == ""
  {
    if pathInfo.Some? {
      TrimmedBlankIsBlank(pathInfo.value);
    }
  }

  /** Removes one trailing '/', if there is one; reads the last character. */
  function DropTrailingSlash(s: string): string
    requires s != []
  {
    if s[|s| - 1] == '/' then s[..|s| - 1] else s
  }

  /** The older normaliser on a string that is neither blank nor a lone "/". */
  lemma LegacyOfText(v: string)
    requires !IsBlank(v) && Trim(v) != "/"
    ensures |DropLeadingSlash(Trim(v))| > 0
    ensures LegacyRequestUrlPathInfo(Some(v)) == Trim(DropTrailingSlash(DropLeadingSlash(Trim(v))))
  {
    TrimmedBlankIsBlank(v);
    LegacyTrailingIndexInBounds(v);
  }

  /** The ends of `Tail(a) + w + Tail(b)` are those of `w` or a '/'. */
  lemma CleanAround(a: string, w: string, b: string)
    requires ServletUtility.AllSlashes(a)
    requires ServletUtility.AllSlashes(b)
    requires w != [] && !IsSpace(w[0]) && !IsSpace(w[|w| - 1])
    ensures var q := a + w + b; q != [] && !IsSpace(q[0]) && !IsSpace(q[|q| - 1])
  {
    var q := a + w + b;
    assert q[|a|] == w[0];
    assert q[0] == (if a == [] then w[0] else '/');
    assert q[|q| - 1] == (if b == [] then w[|w| - 1] else '/');
  }

  /** `s` with its first character removed, when there is one. */
  function Tail(s: string): string {
    if s == [] then s else s[1..]
  }

  /** Only one of any run of slashes at each end is removed: `"//x//"` gives
      `"/x/"`, and `"/test"`, `"test/"` and `"/test/"` each give `"test"`. */
  lemma LegacyStripsOneSlash(a: string, w: string, b: string)
    requires ServletUtility.AllSlashes(a)
    requires ServletUtility.AllSlashes(b)
    requires w != [] && !IsSpace(w[0]) && !IsSpace(w[|w| - 1]) && w[0] != '/' && w[|w| - 1] != '/'
    ensures LegacyRequestUrlPathInfo(Some(a + w + b)) == Tail(a) + w + Tail(b)
  {
    var q := Tail(a) + w + Tail(b);
    LegacyStripsBeforeTrim(a, w, b);
    TailOfSlashes(a);
    TailOfSlashes(b);
    CleanAround(Tail(a), w, Tail(b));
    TrimOfClean(q);
    assert Trim(q) == q;
  }

  /** The two slash removals of the older normaliser on `a + w + b`. */
  lemma LegacyStripsBeforeTrim(a: string, w: string, b: string)
    requires ServletUtility.AllSlashes(a)
    requires ServletUtility.AllSlashes(b)
    requires w != [] && !IsSpace(w[0]) && !IsSpace(w[|w| - 1]) && w[0] != '/' && w[|w| - 1] != '/'
    ensures LegacyRequestUrlPathInfo(Some(a + w + b)) == Trim(Tail(a) + w + Tail(b))
  {
    var v := a + w + b;
    var x := w + b;
    var y := Tail(a) + w;
    assert v == a + x;
    assert Tail(a) + x == y + b;
    CleanAround(a, w, b);
    TrimOfClean(v);
    assert v[|a|] == w[0];
    LegacyOfText(v);
    assert x[0] == w[0];
    DropLeadingOf(a, x);
    DropTrailingAfter(y, b);
    TailOfSlashes(b);
  }

  /** `Tail` of a run of slashes is a shorter run, and the same as dropping the last one. */
  lemma TailOfSlashes(a: string)
    requires ServletUtility.AllSlashes(a)
    ensures ServletUtility.AllSlashes(Tail(a))
    ensures Tail(a) == (if a == [] then a else a[..|a| - 1])
  {
    if a != [] {
      assert a[..|a| - 1] == a[1..];
    }
  }

  /** `DropLeadingSlash` of `a + x`, `a` all slashes and `x` not starting with '/'. */
  lemma DropLeadingOf(a: string, x: string)
    requires ServletUtility.AllSlashes(a)
    requires x != [] && x[0] != '/'
    ensures DropLeadingSlash(a + x) == Tail(a) + x
  {
    if a != [] {
      assert (a + x)[1..] == a[1..] + x;
    } else {
      assert a + x == x;
    }
  }

  /** `DropTrailingSlash` of `x + b`, `x` not ending in '/' and `b` all slashes. */
  lemma DropTrailingAfter(x: string, b: string)
    requires x != [] && x[|x| - 1] != '/'
    requires ServletUtility.AllSlashes(b)
    ensures DropTrailingSlash(x + b) == x + (if b == [] then b else b[..|b| - 1])
  {
    if b != [] {
      assert (x + b)[..|x + b| - 1] == x + b[..|b| - 1];
    } else {
      assert x + b == x;
    }
  }

  /** The two normalisers agree unless the trimmed path starts or ends with two
      slashes; on `"//x//"` they part: the older one leaves `"/x/"`. */
  lemma LegacyAgreesWithStripAll(v: string)
    requires var t := Trim(v); !(|t| >= 2 && t[0] == '/' && t[1] == '/')
    requires var t := Trim(v); !(|t| >= 2 && t[|t| - 1] == '/' && t[|t| - 2] == '/')
    ensures LegacyRequestUrlPathInfo(Some(v)) == ServletUtility.RequestUrlPathInfo(Some(v))
  {
    var t := Trim(v);
    if !IsBlank(v) && t != "/" {
      LegacyOfText(v);
      ServletUtility.PathInfoOfText(v);
      var p := DropLeadingSlash(t);
      LeadingAgree(t);
      TrailingAgree(t, p);
    } else {
      LegacyBlankGivesEmpty(Some(v));
    }
  }

  /** Without a leading "//", stripping one slash is stripping all. */
  lemma LeadingAgree(t: string)
    requires !(|t| >= 2 && t[0] == '/' && t[1] == '/')
    ensures ServletUtility.StripLeadingSlashes(t) == DropLeadingSlash(t)
  {
    if t != [] && t[0] == '/' {
      var p := t[1..];
      assert p == [] || p[0] == t[1];
      assert ServletUtility.StripLeadingSlashes(p) == p;
    }
  }

  /** Without a trailing "//" in `t`, stripping one trailing slash of
      `p == DropLeadingSlash(t)` is stripping all. */
  lemma TrailingAgree(t: string, p: string)
    requires !(|t| >= 2 && t[|t| - 1] == '/' && t[|t| - 2] == '/')
    requires p == DropLeadingSlash(t) && p != []
    ensures ServletUtility.StripTrailingSlashes(p) == DropTrailingSlash(p)
  {
    if p[|p| - 1] == '/' {
      var m := p[..|p| - 1];
      assert p[|p| - 1] == t[|t| - 1];
      assert m == [] || m[|m| - 1] == t[|t| - 2];
      assert ServletUtility.StripTrailingSlashes(m) == m;
    }
  }
}
