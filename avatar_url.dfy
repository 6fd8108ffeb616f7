/** The avatar image address of the user menu (components/user-menu.tsx,
    `getAvatarUrl`): the user's name with `replace(/\s+/g, '+')` applied,
    appended to the ui-avatars endpoint. */
module AvatarUrl {
  import opened ChatTypes

  const AvatarEndpoint: string := "https://www.ui-avatars.com/api/?name="

  /** A character matched by `\s` in a JavaScript regular expression: the
      WhiteSpace and LineTerminator code points of ECMAScript. */
  predicate IsSpace(c: char) {
    || c == '\t' || c == '\n' || c == '\U{000B}' || c == '\U{000C}' || c == '\r'
    || c == ' ' || c == '\U{00A0}' || c == '\U{1680}'
    || ('\U{2000}' <= c <= '\U{200A}')
    || c == '\U{2028}' || c == '\U{2029}' || c == '\U{202F}' || c == '\U{205F}'
    || c == '\U{3000}' || c == '\U{FEFF}'
  }

  predicate NoSpace(s: string) {
    forall i :: 0 <= i < |s| ==> !IsSpace(s[i])
  }

  /** `s` is a run of whitespace. */
  predicate AllSpace(s: string) {
    forall i :: 0 <= i < |s| ==> IsSpace(s[i])
  }

  /** Drops the longest run of whitespace at the front of `s`: what is
      dropped is all whitespace, and what is left is the rest of `s`,
      empty or starting with a non-space. */
  function SkipSpaces(s: string): (r: string)
    ensures |r| <= |s|
    ensures r == s[|s| - |r|..]
    ensures AllSpace(s[..|s| - |r|])
    ensures r == [] || !IsSpace(r[0])
  {
    if s != [] && IsSpace(s[0]) then SkipSpaces(s[1..]) else s
  }

  /** `s.replace(/\s+/g, '+')`: scanning left to right, each longest run of
      whitespace is replaced by one '+'; every other character is copied. */
  function ReplaceSpaceRuns(s: string): (r: string)
    ensures |r| <= |s|
    decreases |s|
  {
    if s == [] then []
    else if IsSpace(s[0]) then "+" + ReplaceSpaceRuns(SkipSpaces(s[1..]))
    else [s[0]] + ReplaceSpaceRuns(s[1..])
  }

  /** The rewritten name holds no whitespace. */
  lemma {:induction false} ReplaceLeavesNoSpace(s: string)
    ensures NoSpace(ReplaceSpaceRuns(s))
    decreases |s|
  {
    if s == [] {
    } else if IsSpace(s[0]) {
      ReplaceLeavesNoSpace(SkipSpaces(s[1..]));
    } else {
      ReplaceLeavesNoSpace(s[1..]);
    }
  }

  /** A name without whitespace passes through unchanged. */
  lemma {:induction false} ReplaceKeepsSpacelessName(s: string)
    ensures NoSpace(s) ==> ReplaceSpaceRuns(s) == s
    decreases |s|
  {
    if s != [] && NoSpace(s) {
      assert !IsSpace(s[0]);
      assert NoSpace(s[1..]);
      ReplaceKeepsSpacelessName(s[1..]);
    }
  }

  /** The address for a present name: the endpoint followed by the
      rewritten name. */
  function AvatarUrlFor(name: string): (url: string)
    ensures url == AvatarEndpoint + ReplaceSpaceRuns(name)
    ensures NoSpace(url[|AvatarEndpoint|..])
    ensures |url| <= |AvatarEndpoint| + |name|
    ensures NoSpace(name) ==> url == AvatarEndpoint + name
  {
    ReplaceLeavesNoSpace(name);
    ReplaceKeepsSpacelessName(name);
    var url := AvatarEndpoint + ReplaceSpaceRuns(name);
    assert url[|AvatarEndpoint|..] == ReplaceSpaceRuns(name);
    url
  }

  /** getAvatarUrl(user): `user.user_metadata.name` may be absent (None),
      and calling `replace` on it then throws a TypeError. */
  function GetAvatarUrl(name: Option<string>): (o: Outcome<string>)
    ensures o.Threw? <==> name.None?
    ensures o.Threw? ==> o.exception == TypeError
    ensures o.Returned? ==> AvatarEndpoint <= o.value && NoSpace(o.value[|AvatarEndpoint|..])
    ensures o.Returned? ==> o.value[|AvatarEndpoint|..] == ReplaceSpaceRuns(name.value)
    ensures o.Returned? ==> |o.value| <= |AvatarEndpoint| + |name.value|
    ensures o.Returned? && NoSpace(name.value) ==> o.value == AvatarEndpoint + name.value
  {
    match name
    case None => Threw(TypeError)
    case Some(n) =>
      var url := AvatarUrlFor(n);
      assert url[|AvatarEndpoint|..] == ReplaceSpaceRuns(n);
      Returned(url)
  }

  // ---------------------------------------------------------------- runs

  lemma {:induction false} SkipSpacesAppend(x: string, b: string)
    ensures SkipSpaces(x + b) == if SkipSpaces(x) == [] then SkipSpaces(b) else SkipSpaces(x) + b
  {
    if x == [] {
      assert x + b == b;
    } else {
      var xb := x + b;
      assert xb[0] == x[0];
      if IsSpace(x[0]) {
        assert xb[1..] == x[1..] + b;
        assert SkipSpaces(xb) == SkipSpaces(x[1..] + b);
        assert SkipSpaces(x) == SkipSpaces(x[1..]);
        SkipSpacesAppend(x[1..], b);
      } else {
        assert SkipSpaces(xb) == xb;
        assert SkipSpaces(x) == x;
      }
    }
  }

  /** A run of whitespace followed by a non-space character (or by the end)
      becomes exactly one '+'. */
  lemma {:induction false} RunBecomesOnePlus(w: string, b: string)
    requires w != [] && AllSpace(w)
    requires b == [] || !IsSpace(b[0])
    ensures ReplaceSpaceRuns(w + b) == "+" + ReplaceSpaceRuns(b)
  {
    assert (w + b)[0] == w[0];
    assert (w + b)[1..] == w[1..] + b;
    AllSpacesSkipped(w[1..]);
    SkipSpacesAppend(w[1..], b);
  }

  lemma {:induction false} AllSpacesSkipped(w: string)
    requires AllSpace(w)
    ensures SkipSpaces(w) == []
  {
    if w != [] {
      AllSpacesSkipped(w[1..]);
    }
  }

  /** Whitespace skipping stops before a last non-space character. */
  lemma {:induction false} SkipSpacesKeepsLast(s: string)
    requires s != [] && !IsSpace(s[|s| - 1])
    ensures SkipSpaces(s) != [] && SkipSpaces(s)[|SkipSpaces(s)| - 1] == s[|s| - 1]
  {
    if IsSpace(s[0]) {
      SkipSpacesKeepsLast(s[1..]);
    }
  }

  /** Replacing is done piecewise when the first piece does not end inside
      a run of whitespace. */
  lemma {:induction false} ReplaceAppend(a: string, b: string)
    requires a == [] || !IsSpace(a[|a| - 1])
    ensures ReplaceSpaceRuns(a + b) == ReplaceSpaceRuns(a) + ReplaceSpaceRuns(b)
    decreases |a|
  {
    if a == [] {
      assert a + b == b;
    } else {
      var ab := a + b;
      assert ab[0] == a[0];
      assert ab[1..] == a[1..] + b;
      if !IsSpace(a[0]) {
        ReplaceAppend(a[1..], b);
      } else {
        var rest := SkipSpaces(a[1..]);
        SkipSpacesKeepsLast(a[1..]);
        SkipSpacesAppend(a[1..], b);
        assert SkipSpaces(ab[1..]) == rest + b;
        ReplaceAppend(rest, b);
      }
    }
  }

  /** A maximal run of whitespace inside a name becomes exactly one '+',
      and the text on either side is rewritten on its own. */
  lemma RunInNameBecomesOnePlus(a: string, w: string, b: string)
    requires a == [] || !IsSpace(a[|a| - 1])
    requires w != [] && AllSpace(w)
    requires b == [] || !IsSpace(b[0])
    ensures ReplaceSpaceRuns(a + (w + b)) == ReplaceSpaceRuns(a) + ("+" + ReplaceSpaceRuns(b))
  {
    ReplaceAppend(a, w + b);
    RunBecomesOnePlus(w, b);
  }

  // ------------------------------------------------- what is kept, in order

  /** The characters of `s` that are neither whitespace nor '+'. */
  function Visible(s: string): (r: string)
    ensures |r| <= |s|
  {
    if s == [] then []
    else if IsSpace(s[0]) || s[0] == '+' then Visible(s[1..])
    else [s[0]] + Visible(s[1..])
  }

  lemma {:induction false} VisibleSkipSpaces(s: string)
    ensures Visible(SkipSpaces(s)) == Visible(s)
  {
    if s != [] && IsSpace(s[0]) {
      VisibleSkipSpaces(s[1..]);
    }
  }

  /** Apart from whitespace and '+', the rewritten name holds exactly the
      characters of the name, in their order: nothing else is escaped. */
  lemma {:induction false} ReplaceKeepsVisible(s: string)
    ensures Visible(ReplaceSpaceRuns(s)) == Visible(s)
    decreases |s|
  {
    if s == [] {
    } else if IsSpace(s[0]) {
      var rest := SkipSpaces(s[1..]);
      ReplaceKeepsVisible(rest);
      VisibleSkipSpaces(s[1..]);
      assert ReplaceSpaceRuns(s) == "+" + ReplaceSpaceRuns(rest);
      assert ("+" + ReplaceSpaceRuns(rest))[1..] == ReplaceSpaceRuns(rest);
    } else {
      ReplaceKeepsVisible(s[1..]);
      assert ReplaceSpaceRuns(s) == [s[0]] + ReplaceSpaceRuns(s[1..]);
      assert ([s[0]] + ReplaceSpaceRuns(s[1..]))[1..] == ReplaceSpaceRuns(s[1..]);
    }
  }
}
