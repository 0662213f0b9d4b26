/** Standardisation of column names (app.py line 23): each header is
    `strip()`ped, its spaces become `_`, its dots are deleted and it is
    lower-cased. */
module Columns {
  
  /** The characters Python's `str.strip()` removes. */
  predicate IsSpace(c: char)
  {
    c == ' ' || ('\t' <= c <= '\r') || ('\U{1C}' <= c <= '\U{1F}') ||
    c == '\U{85}' || c == '\U{A0}' || c == '\U{1680}' || ('\U{2000}' <= c <= '\U{200A}') ||
    c == '\U{2028}' || c == '\U{2029}' || c == '\U{202F}' || c == '\U{205F}' || c == '\U{3000}'
  }

  predicate IsUpper(c: char) { 'A' <= c <= 'Z' }

  function StripLeft(s: string): (r: string)
    ensures |r| <= |s| && r == s[|s| - |r|..]
    ensures r != [] ==> !IsSpace(r[0])
    ensures forall i :: 0 <= i < |s| - |r| ==> IsSpace(s[i])
  {
    if s != [] && IsSpace(s[0]) then StripLeft(s[1..]) else s
  }

  function StripRight(s: string): (r: string)
    ensures |r| <= |s| && r == s[..|r|]
    ensures r != [] ==> !IsSpace(r[|r| - 1])
    ensures forall i :: |r| <= i < |s| ==> IsSpace(s[i])
  {
    if s != [] && IsSpace(s[|s| - 1]) then StripRight(s[..|s| - 1]) else s
  }

  /** `str.strip()`: leading and trailing whitespace removed, the rest kept. */
  function Strip(s: string): (r: string)
    ensures r != [] ==> !IsSpace(r[0]) && !IsSpace(r[|r| - 1])
    ensures exists a, b ::
              0 <= a <= b <= |s| && r == s[a..b] &&
              forall i :: 0 <= i < a || b <= i < |s| ==> IsSpace(s[i])
  {
    var l := StripLeft(s);
    var r := StripRight(l);
    var a := |s| - |l|;
    assert r == s[a..a + |r|];
    r
  }

  /** `.replace(' ', '_')` */
  function SpacesToUnderscores(s: string): (r: string)
    ensures |r| == |s| && ' ' !in r
    ensures forall i :: 0 <= i < |s| ==> r[i] == if s[i] == ' ' then '_' else s[i]
  {
    seq(|s|, i requires 0 <= i < |s| => if s[i] == ' ' then '_' else s[i])
  }

  /** `.replace('.', '')`: every dot is deleted. */
  function DeleteDots(s: string): (r: string)
    ensures |r| <= |s|
  {
    if s == [] then [] else (if s[0] == '.' then [] else [s[0]]) + DeleteDots(s[1..])
  }

  /** Deleting the dots keeps every other character and only those. */
  lemma {:induction false} DeleteDotsChars(s: string)
    ensures forall c :: c in DeleteDots(s) <==> c in s && c != '.'
  {
    if s != [] {
      DeleteDotsChars(s[1..]);
      assert s == [s[0]] + s[1..];
    }
  }

  /** Deleting the dots works character by character and keeps the order of
      the characters it keeps: it splits over concatenation. */
  lemma {:induction false} DeleteDotsAppend(a: string, b: string)
    ensures DeleteDots(a + b) == DeleteDots(a) + DeleteDots(b)
  {
    if a == [] {
      assert a + b == b;
    } else {
      assert (a + b)[1..] == a[1..] + b;
      DeleteDotsAppend(a[1..], b);
    }
  }

  lemma {:induction false} DeleteDotsNone(s: string)
    requires '.' !in s
    ensures DeleteDots(s) == s
  {
    if s != [] {
      DeleteDotsNone(s[1..]);
      assert s == [s[0]] + s[1..];
    }
  }

  function LowerChar(c: char): (r: char)
    ensures !IsUpper(r)
    ensures IsSpace(r) == IsSpace(c) && (r == ' ') == (c == ' ') && (r == '.') == (c == '.')
  {
    if IsUpper(c) then (c as int - 'A' as int + 'a' as int) as char else c
  }

  /** `.lower()` on ASCII letters. */
  function Lower(s: string): (r: string)
    ensures |r| == |s|
    ensures forall i :: 0 <= i < |s| ==> r[i] == LowerChar(s[i])
  {
    seq(|s|, i requires 0 <= i < |s| => LowerChar(s[i]))
  }

  /** The standardised form of one column name. It holds no space, no dot and
      no upper-case ASCII letter. */
  function NormalizeName(s: string): (r: string)
    ensures ' ' !in r && '.' !in r
    ensures forall i :: 0 <= i < |r| ==> !IsUpper(r[i])
  {
    NameChars(s);
    Lower(DeleteDots(SpacesToUnderscores(Strip(s))))
  }

  lemma NameChars(s: string)
    ensures var r := Lower(DeleteDots(SpacesToUnderscores(Strip(s))));
      ' ' !in r && '.' !in r && forall i :: 0 <= i < |r| ==> !IsUpper(r[i])
  {
    var u := SpacesToUnderscores(Strip(s));
    var d := DeleteDots(u);
    var r := Lower(d);
    DeleteDotsChars(u);
    forall i | 0 <= i < |r| ensures r[i] != ' ' && r[i] != '.' { assert d[i] in d; }
  }

  /** The standardised header, column by column. */
  function NormalizeHeader(columns: seq<string>): (r: seq<string>)
    ensures |r| == |columns|
    ensures forall i :: 0 <= i < |columns| ==> r[i] == NormalizeName(columns[i])
    ensures forall c :: c in r <==> exists raw :: raw in columns && NormalizeName(raw) == c
  {
    HeaderNames(columns);
    seq(|columns|, i requires 0 <= i < |columns| => NormalizeName(columns[i]))
  }

  lemma HeaderNames(columns: seq<string>)
    ensures var r := seq(|columns|, i requires 0 <= i < |columns| => NormalizeName(columns[i]));
      forall c :: c in r <==> exists raw :: raw in columns && NormalizeName(raw) == c
  {
    var r := seq(|columns|, i requires 0 <= i < |columns| => NormalizeName(columns[i]));
    forall raw | raw in columns ensures NormalizeName(raw) in r {
      var i :| 0 <= i < |columns| && columns[i] == raw;
      assert r[i] == NormalizeName(raw);
    }
  }

  /** A name whose only whitespace characters are spaces normalises to a name
      without any whitespace. */
  lemma NoWhitespaceAfter(s: string)
    requires forall i :: 0 <= i < |s| ==> IsSpace(s[i]) ==> s[i] == ' '
    ensures forall i :: 0 <= i < |NormalizeName(s)| ==> !IsSpace(NormalizeName(s)[i])
  {
    var t := Strip(s);
    var u := SpacesToUnderscores(t);
    var d := DeleteDots(u);
    var r := Lower(d);
    DeleteDotsChars(u);
    assert r == NormalizeName(s);
    forall i | 0 <= i < |r| ensures !IsSpace(r[i]) {
      assert d[i] in d;
      var j :| 0 <= j < |u| && u[j] == d[i];
      assert t[j] in t;
      assert t[j] in s;
    }
  }

  /** Normalising a name that is already normal changes nothing. */
  lemma NormalFixed(n: string)
    requires ' ' !in n && '.' !in n
    requires forall i :: 0 <= i < |n| ==> !IsUpper(n[i]) && !IsSpace(n[i])
    ensures NormalizeName(n) == n
  {
    assert StripLeft(n) == n;
    assert StripRight(n) == n;
    assert SpacesToUnderscores(n) == n;
    DeleteDotsNone(n);
    assert Lower(n) == n;
  }

  /** Normalisation is idempotent on names whose only whitespace is spaces. */
  lemma NormalizeIdempotent(s: string)
    requires forall i :: 0 <= i < |s| ==> IsSpace(s[i]) ==> s[i] == ' '
    ensures NormalizeName(NormalizeName(s)) == NormalizeName(s)
  {
    NoWhitespaceAfter(s);
    NormalFixed(NormalizeName(s));
  }

  lemma StripUntouched(s: string)
    requires s != [] && !IsSpace(s[0]) && !IsSpace(s[|s| - 1])
    ensures Strip(s) == s
  {
  }

  lemma UnderscoresUntouched(s: string)
    requires ' ' !in s
    ensures SpacesToUnderscores(s) == s
  {
  }

  /** A name without surrounding whitespace skips the `strip()` step. */
  lemma UnpaddedName(s: string)
    requires s != [] && !IsSpace(s[0]) && !IsSpace(s[|s| - 1])
    ensures NormalizeName(s) == Lower(DeleteDots(SpacesToUnderscores(s)))
  {
    StripUntouched(s);
  }

  /** Surrounding whitespace does not change the normalised name. */
  lemma NormalizeStripped(s: string)
    ensures NormalizeName(s) == NormalizeName(Strip(s))
  {
    var t := Strip(s);
    if t != [] {
      StripUntouched(t);
    }
  }

  /** A name without surrounding whitespace and without dots only has its
      spaces replaced and its letters lowered. */
  lemma PlainName(s: string)
    requires s != [] && !IsSpace(s[0]) && !IsSpace(s[|s| - 1]) && '.' !in s
    ensures NormalizeName(s) == Lower(SpacesToUnderscores(s))
  {
    StripUntouched(s);
    DeleteDotsNone(SpacesToUnderscores(s));
  }

  lemma DotTabName()
    ensures NormalizeName(".\tx") == "\tx"
  {
    UnpaddedName(".\tx");
    UnderscoresUntouched(".\tx");
    assert DeleteDots(".\tx") == "\tx" by {
      DeleteDotsNone("\tx");
    }
    assert Lower("\tx") == "\tx";
  }

  lemma TabName()
    ensures NormalizeName("\tx") == "x"
  {
    NormalizeStripped("\tx");
    TabStripped();
    NormalFixed("x");
  }

  lemma TabStripped()
    ensures Strip("\tx") == "x"
  {
    assert "\tx"[1..] == "x";
  }

  /** Without that condition it is not: deleting the dot of ".\tx" uncovers a
      tab that the earlier `strip()` could not see. */
  lemma NormalizeNotIdempotent()
    ensures NormalizeName(NormalizeName(".\tx")) != NormalizeName(".\tx")
  {
    DotTabName();
    TabName();
  }

  /** The loader's key column is reached from the spelling "Post ID". */
  lemma SpacedSpelling()
    ensures NormalizeName("Post ID") == "post_id"
  {
    PlainName("Post ID");
    SpacedSteps();
  }

  lemma SpacedSteps()
    ensures Lower(SpacesToUnderscores("Post ID")) == "post_id"
  {
    assert SpacesToUnderscores("Post ID") == "Post_ID";
  }

  /** A dotted spelling loses its dot rather than gaining an underscore, so
      "Post.ID" does not name the key column. */
  lemma DottedSpelling()
    ensures NormalizeName("Post.ID") == "postid"
  {
    UnpaddedName("Post.ID");
    UnderscoresUntouched("Post.ID");
    DottedSteps();
  }

  lemma DottedSteps()
    ensures Lower(DeleteDots("Post.ID")) == "postid"
  {
    DotDeleted();
    assert Lower("PostID") == "postid";
  }

  lemma DotDeleted()
    ensures DeleteDots("Post.ID") == "PostID"
  {
    var s := "Post.ID";
    assert s[1..] == "ost.ID" && s[1..][1..] == "st.ID" && s[1..][1..][1..] == "t.ID";
    assert s[1..][1..][1..][1..] == ".ID" && s[1..][1..][1..][1..][1..] == "ID";
  }
}
