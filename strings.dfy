/**
 * The functions of Go's `strings` package the text formats use: `Join` and
 * `Split` around a one-character separator, `Count` of a one-character
 * substring, and `Fields`, which splits around runs of white space.
 */
module Strings {
  /** w holds no c. */
  predicate Lacks(w: string, c: char)
  {
    forall i :: 0 <= i < |w| ==> w[i] != c
  }

  /** `strings.Join(ws, sep)`: the words with one sep between neighbours. */
  function Join(ws: seq<string>, sep: char): string
  {
    if ws == [] then "" else if |ws| == 1 then ws[0] else ws[0] + [sep] + Join(ws[1..], sep)
  }

  /** `strings.Split(s, sep)`: the pieces of s between its seps, empty pieces included. */
  function Split(s: string, sep: char): (ws: seq<string>)
    ensures |ws| >= 1
  {
    if s == [] then [""]
    else
      var rest := Split(s[1..], sep);
      if s[0] == sep then [""] + rest else [[s[0]] + rest[0]] + rest[1..]
  }

  /** A word without sep joins the first piece of what follows it. */
  lemma {:induction false} SplitWord(w: string, t: string, sep: char)
    requires Lacks(w, sep)
    ensures Split(w + t, sep) == [w + Split(t, sep)[0]] + Split(t, sep)[1..]
    decreases |w|
  {
    if w == [] {
      assert w + t == t;
      assert w + Split(t, sep)[0] == Split(t, sep)[0];
      assert Split(t, sep) == [Split(t, sep)[0]] + Split(t, sep)[1..];
    } else {
      SplitWord(w[1..], t, sep);
      assert (w + t)[1..] == w[1..] + t;
      var rest := Split(w[1..] + t, sep);
      assert ([w[0]] + rest[0]) == w + Split(t, sep)[0];
      assert rest[1..] == Split(t, sep)[1..];
    }
  }

  /** Splitting words joined by sep gives back the words, when none holds sep. */
  lemma {:induction false} SplitJoin(ws: seq<string>, sep: char)
    requires ws != []
    requires forall k :: 0 <= k < |ws| ==> Lacks(ws[k], sep)
    ensures Split(Join(ws, sep), sep) == ws
    decreases |ws|
  {
    if |ws| == 1 {
      SplitWord(ws[0], "", sep);
      assert ws[0] + "" == ws[0];
      assert Split("", sep) == [""];
      assert Split("", sep)[1..] == [];
      assert ws == [ws[0]];
    } else {
      forall k | 0 <= k < |ws[1..]| ensures Lacks(ws[1..][k], sep) {
        assert ws[1..][k] == ws[k + 1];
      }
      SplitJoin(ws[1..], sep);
      var t := Join(ws[1..], sep);
      assert Join(ws, sep) == ws[0] + ([sep] + t);
      SplitWord(ws[0], [sep] + t, sep);
      assert ([sep] + t)[1..] == t;
      assert Split([sep] + t, sep) == [""] + ws[1..];
      assert Split([sep] + t, sep)[0] == "" && Split([sep] + t, sep)[1..] == ws[1..];
      assert ws[0] + "" == ws[0];
      assert ws == [ws[0]] + ws[1..];
    }
  }

  /** Joining one more word. */
  lemma {:induction false} JoinSnoc(ws: seq<string>, w: string, sep: char)
    ensures Join(ws + [w], sep) == if ws == [] then w else Join(ws, sep) + [sep] + w
    decreases |ws|
  {
    if |ws| > 1 {
      JoinSnoc(ws[1..], w, sep);
      assert (ws + [w])[1..] == ws[1..] + [w];
    } else if |ws| == 1 {
      assert (ws + [w])[1..] == [w];
    }
  }

  /** The first n + 1 words joined: the first n, a separator unless n is 0, and word n. */
  lemma JoinStep(ws: seq<string>, n: nat, sep: char)
    requires n < |ws|
    ensures Join(ws[..n + 1], sep) == Join(ws[..n], sep) + (if n == 0 then "" else [sep]) + ws[n]
  {
    var pre := ws[..n];
    assert ws[..n + 1] == pre + [ws[n]];
    JoinSnoc(pre, ws[n], sep);
    if n == 0 {
      assert pre == [];
      JoinEmpty(sep);
    }
    hide Join;
  }

  /** Six words joined. */
  lemma JoinSix(a: string, b: string, c: string, d: string, e: string, f: string, sep: char)
    ensures Join([a, b, c, d, e, f], sep) == a + [sep] + b + [sep] + c + [sep] + d + [sep] + e + [sep] + f
  {
    var ws := [a, b, c, d, e, f];
    assert ws[1..] == [b, c, d, e, f];
    assert ws[1..][1..] == [c, d, e, f];
    assert ws[1..][1..][1..] == [d, e, f];
    assert ws[1..][1..][1..][1..] == [e, f];
    assert ws[1..][1..][1..][1..][1..] == [f];
    JoinCons(ws, sep);
    JoinCons(ws[1..], sep);
    JoinCons(ws[1..][1..], sep);
    JoinCons(ws[1..][1..][1..], sep);
    JoinCons(ws[1..][1..][1..][1..], sep);
  }

  /** The first word, a separator, and the rest joined. */
  lemma JoinCons(ws: seq<string>, sep: char)
    requires |ws| > 1
    ensures Join(ws, sep) == ws[0] + [sep] + Join(ws[1..], sep)
  {
  }

  lemma JoinOne(w: string, sep: char)
    ensures Join([w], sep) == w
  {
  }

  lemma JoinEmpty(sep: char)
    ensures Join([], sep) == ""
  {
  }

  /** `strings.Count(s, string(c))`: the number of c in s. */
  function Count(s: string, c: char): (n: nat)
    ensures n <= |s|
    ensures n == 0 <==> Lacks(s, c)
  {
    if s == [] then 0 else (if s[0] == c then 1 else 0) + Count(s[1..], c)
  }

  /** A character counted in a one-character string. */
  lemma CountOne(a: char, c: char)
    ensures Count([a], c) == if a == c then 1 else 0
  {
    assert [a][1..] == [];
  }

  /** Counting in two pieces. */
  lemma {:induction false} CountConcat(a: string, b: string, c: char)
    ensures Count(a + b, c) == Count(a, c) + Count(b, c)
    decreases |a|
  {
    if a != [] {
      CountConcat(a[1..], b, c);
      assert (a + b)[1..] == a[1..] + b;
    } else {
      assert a + b == b;
    }
  }

  /** Counting in words joined by a separator that is not the character counted. */
  lemma CountJoinCons(ws: seq<string>, sep: char, c: char)
    requires |ws| > 1 && sep != c
    ensures Count(Join(ws, sep), c) == Count(ws[0], c) + Count(Join(ws[1..], sep), c)
  {
    CountConcat(ws[0], [sep], c);
    CountConcat(ws[0] + [sep], Join(ws[1..], sep), c);
    CountOne(sep, c);
  }

  /** `unicode.IsSpace`: the white space characters of Unicode's Latin-1 range and the White_Space property. */
  predicate IsSpace(c: char)
  {
    c == '\t' || c == '\n' || c == '\U{000B}' || c == '\U{000C}' || c == '\r' || c == ' ' ||
    c == '\U{0085}' || c == '\U{00A0}' || c == '\U{1680}' || '\U{2000}' <= c <= '\U{200A}' ||
    c == '\U{2028}' || c == '\U{2029}' || c == '\U{202F}' || c == '\U{205F}' || c == '\U{3000}'
  }

  /** w holds no white space. */
  predicate Solid(w: string)
  {
    forall i :: 0 <= i < |w| ==> !IsSpace(w[i])
  }

  /**
   * `strings.Fields(s)`: the maximal runs of s that hold no white space, in
   * order; none for a string of white space.
   */
  function Fields(s: string): (fs: seq<string>)
    ensures forall k :: 0 <= k < |fs| ==> fs[k] != [] && Solid(fs[k])
    ensures s != [] && !IsSpace(s[0]) ==> fs != [] && fs[0][0] == s[0]
    decreases |s|
  {
    if s == [] then []
    else
      var rest := Fields(s[1..]);
      if IsSpace(s[0]) then rest
      else if |s| > 1 && !IsSpace(s[1]) then [[s[0]] + rest[0]] + rest[1..]
      else [[s[0]]] + rest
  }

  /** A word with no white space, followed by white space or nothing, is the first field. */
  lemma {:induction false} FieldsWord(w: string, t: string)
    requires w != [] && Solid(w) && (t == [] || IsSpace(t[0]))
    ensures Fields(w + t) == [w] + Fields(t)
    decreases |w|
  {
    assert (w + t)[1..] == w[1..] + t;
    if |w| > 1 {
      FieldsWord(w[1..], t);
      assert (w + t)[1] == w[1];
      assert [w[0]] + w[1..] == w;
    } else {
      assert w[1..] + t == t;
      assert [w[0]] == w;
    }
  }

  /** Fields written with single spaces between them are read back by `Fields`. */
  lemma {:induction false} FieldsJoin(ws: seq<string>)
    requires forall k :: 0 <= k < |ws| ==> ws[k] != [] && Solid(ws[k])
    ensures Fields(Join(ws, ' ')) == ws
    decreases |ws|
  {
    if |ws| == 1 {
      FieldsWord(ws[0], "");
      assert ws[0] + "" == ws[0];
    } else if |ws| > 1 {
      forall k | 0 <= k < |ws[1..]| ensures ws[1..][k] != [] && Solid(ws[1..][k]) {
        assert ws[1..][k] == ws[k + 1];
      }
      FieldsJoin(ws[1..]);
      var t := Join(ws[1..], ' ');
      assert Join(ws, ' ') == ws[0] + (" " + t);
      FieldsWord(ws[0], " " + t);
      assert (" " + t)[1..] == t;
      assert ws == [ws[0]] + ws[1..];
    }
  }

  /** Words without white space, joined by a separator that is not white space, hold none. */
  lemma {:induction false} JoinSolid(ws: seq<string>, sep: char)
    requires forall k :: 0 <= k < |ws| ==> Solid(ws[k])
    requires !IsSpace(sep)
    ensures Solid(Join(ws, sep))
    decreases |ws|
  {
    if |ws| > 1 {
      forall k | 0 <= k < |ws[1..]| ensures Solid(ws[1..][k]) {
        assert ws[1..][k] == ws[k + 1];
      }
      JoinSolid(ws[1..], sep);
      var s := Join(ws, sep);
      var t := Join(ws[1..], sep);
      assert s == ws[0] + [sep] + t;
      forall i | 0 <= i < |s| ensures !IsSpace(s[i]) {
        if i < |ws[0]| {
          assert s[i] == ws[0][i];
        } else if i > |ws[0]| {
          assert s[i] == t[i - |ws[0]| - 1];
        }
      }
    }
  }

  /** The lower-case form of an ASCII capital letter; any other character is its own. */
  function LowerChar(c: char): (l: char)
    ensures 'A' <= c <= 'Z' ==> 'a' <= l <= 'z' && l as int - 'a' as int == c as int - 'A' as int
    ensures !('A' <= c <= 'Z') ==> l == c
  {
    if 'A' <= c <= 'Z' then (c as int - 'A' as int + 'a' as int) as char else c
  }

  /** `strings.ToLower` on ASCII text: each capital letter replaced by its lower-case form. */
  function ToLower(s: string): (l: string)
    ensures |l| == |s| && forall i :: 0 <= i < |s| ==> l[i] == LowerChar(s[i])
  {
    seq(|s|, i requires 0 <= i < |s| => LowerChar(s[i]))
  }
}
