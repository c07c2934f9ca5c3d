/** The Python string primitives the tool relies on: `strip()`, `strip('"')`,
    `split(maxsplit=1)` and `split(',')`, over a fixed ASCII whitespace set. */
module Text {

  /** `str.isspace` on ASCII: tab, line feed, vertical tab, form feed, carriage
      return (9..13), the four separators 0x1C..0x1F and the space (28..32). */
  predicate IsSpace(c: char) {
    9 <= c as int <= 13 || 28 <= c as int <= 32
  }

  predicate NoSpace(s: string) {
    forall i :: 0 <= i < |s| ==> !IsSpace(s[i])
  }

  predicate AllSpace(s: string) {
    forall i :: 0 <= i < |s| ==> IsSpace(s[i])
  }

  /** Neither end of `s` is whitespace. */
  predicate Trimmed(s: string) {
    s == [] || (!IsSpace(s[0]) && !IsSpace(s[|s| - 1]))
  }

  /** Neither end of `s` is the character `c`. */
  predicate EndsFree(s: string, c: char) {
    s == [] || (s[0] != c && s[|s| - 1] != c)
  }

  predicate StartsWith(s: string, prefix: string) {
    |prefix| <= |s| && s[..|prefix|] == prefix
  }

  /** `s.lstrip()`: a suffix of `s`, everything cut off is whitespace. */
  function TrimLeft(s: string): (r: string)
    ensures |r| <= |s|
    ensures AllSpace(s[..|s| - |r|])
    ensures r == [] || !IsSpace(r[0])
  {
    if s == [] || !IsSpace(s[0]) then s else TrimLeft(s[1..])
  }

  /** What `lstrip` keeps is the tail of its argument. */
  lemma {:induction false} TrimLeftSuffix(s: string)
    ensures TrimLeft(s) == s[|s| - |TrimLeft(s)|..]
  {
    if s != [] && IsSpace(s[0]) {
      TrimLeftSuffix(s[1..]);
    }
  }

  /** `s.rstrip()`: a prefix of `s`, everything cut off is whitespace. */
  function TrimRight(s: string): (r: string)
    ensures |r| <= |s|
    ensures AllSpace(s[|r|..])
    ensures r == [] || (!IsSpace(r[|r| - 1]) && r[0] == s[0])
  {
    if s == [] || !IsSpace(s[|s| - 1]) then s else TrimRight(s[..|s| - 1])
  }

  /** What `rstrip` keeps is the head of its argument. */
  lemma {:induction false} TrimRightPrefix(s: string)
    ensures TrimRight(s) == s[..|TrimRight(s)|]
  {
    if s != [] && IsSpace(s[|s| - 1]) {
      TrimRightPrefix(s[..|s| - 1]);
    }
  }

  /** `s.strip()`: leading, then trailing whitespace goes. */
  function Strip(s: string): (r: string)
    ensures Trimmed(r)
    decreases |s|
  {
    if s != [] && IsSpace(s[0]) then Strip(s[1..])
    else if s != [] && IsSpace(s[|s| - 1]) then Strip(s[..|s| - 1])
    else s
  }

  /** A blank line strips to the empty text. */
  lemma {:induction false} StripBlank(s: string)
    requires AllSpace(s)
    ensures Strip(s) == []
    decreases |s|
  {
    if s != [] {
      assert AllSpace(s[1..]) by {
        forall i | 0 <= i < |s[1..]| ensures IsSpace(s[1..][i]) {
          assert s[1..][i] == s[i + 1];
        }
      }
      StripBlank(s[1..]);
    }
  }

  /** `strip` removes exactly the whitespace that surrounds a trimmed text. */
  lemma {:induction false} StripSurrounded(pre: string, x: string, post: string)
    requires AllSpace(pre) && AllSpace(post)
    requires x != [] && Trimmed(x)
    ensures Strip(pre + x + post) == x
    decreases |pre| + |post|
  {
    var s := pre + x + post;
    if pre != [] {
      assert s[0] == pre[0];
      assert s[1..] == pre[1..] + x + post;
      StripSurrounded(pre[1..], x, post);
    } else if post != [] {
      assert s == x + post;
      assert s[0] == x[0];
      assert s[|s| - 1] == post[|post| - 1];
      assert s[..|s| - 1] == [] + x + post[..|post| - 1];
      StripSurrounded([], x, post[..|post| - 1]);
    } else {
      assert s == x;
    }
  }

  /** `s.lstrip(c)` */
  function StripLeading(s: string, c: char): (r: string)
    ensures |r| <= |s|
    ensures forall i :: 0 <= i < |s| - |r| ==> s[i] == c
    ensures r == [] || r[0] != c
  {
    if s == [] || s[0] != c then s else StripLeading(s[1..], c)
  }

  /** What `lstrip` keeps is a suffix of its input. */
  lemma {:induction false} StripLeadingSuffix(s: string, c: char)
    ensures StripLeading(s, c) == s[|s| - |StripLeading(s, c)|..]
  {
    if s != [] && s[0] == c {
      StripLeadingSuffix(s[1..], c);
    }
  }

  /** `s.rstrip(c)` */
  function StripTrailing(s: string, c: char): (r: string)
    ensures |r| <= |s|
    ensures forall i :: |r| <= i < |s| ==> s[i] == c
    ensures r == [] || (r[|r| - 1] != c && r[0] == s[0])
  {
    if s == [] || s[|s| - 1] != c then s else StripTrailing(s[..|s| - 1], c)
  }

  /** What `rstrip` keeps is a prefix of its input. */
  lemma {:induction false} StripTrailingPrefix(s: string, c: char)
    ensures StripTrailing(s, c) == s[..|StripTrailing(s, c)|]
  {
    if s != [] && s[|s| - 1] == c {
      StripTrailingPrefix(s[..|s| - 1], c);
    }
  }

  /** `s.strip(c)`: removes every leading and every trailing `c`, not one pair. */
  function StripChar(s: string, c: char): (r: string)
    ensures EndsFree(r, c)
  {
    StripTrailing(StripLeading(s, c), c)
  }

  /** Wrapping a text whose ends are not `c` in one `c` on each side, then
      stripping `c`, gives the text back. */
  lemma {:induction false} StripCharWrapped(v: string, c: char)
    requires EndsFree(v, c)
    ensures StripChar([c] + v + [c], c) == v
  {
    var s := [c] + v + [c];
    assert s[1..] == v + [c];
    if v == [] {
      assert StripLeading(s, c) == StripLeading([c], c) == StripLeading([], c);
    } else {
      assert (v + [c])[0] == v[0];
      assert StripLeading(s, c) == v + [c];
      assert (v + [c])[..|v|] == v;
      assert StripTrailing(v + [c], c) == StripTrailing(v, c) == v;
    }
  }

  /** Length of the leading run of non-whitespace characters. */
  function TokenEnd(s: string): (n: nat)
    ensures n <= |s| && NoSpace(s[..n])
    ensures n == |s| || IsSpace(s[n])
  {
    if s == [] || IsSpace(s[0]) then 0 else 1 + TokenEnd(s[1..])
  }

  /** The leading token of a text that starts with a space-free `k` followed
      by whitespace is exactly `k`. */
  lemma {:induction false} TokenEndAfter(k: string, rest: string)
    requires NoSpace(k)
    requires rest != [] && IsSpace(rest[0])
    ensures TokenEnd(k + rest) == |k|
  {
    if k != [] {
      assert (k + rest)[1..] == k[1..] + rest;
      TokenEndAfter(k[1..], rest);
    }
  }

  /** `s.split(maxsplit=1)`: no part when `s` is all whitespace; otherwise the
      first whitespace-delimited token, then, if anything but whitespace
      follows, the rest of `s` with its leading whitespace dropped. */
  function SplitOnce(s: string): (parts: seq<string>)
    ensures |parts| <= 2
    ensures |parts| == 0 <==> AllSpace(s)
    ensures |parts| >= 1 ==> parts[0] != [] && NoSpace(parts[0])
    ensures |parts| == 2 ==> parts[1] != [] && !IsSpace(parts[1][0])
  {
    var t := TrimLeft(s);
    if t == [] then
      assert s[..|s|] == s;
      []
    else
      var n := TokenEnd(t);
      var rest := TrimLeft(t[n..]);
      assert !AllSpace(s) by {
        TrimLeftSuffix(s);
        assert s[|s| - |t|] == t[0];
      }
      assert n > 0;
      if rest == [] then [t[..n]] else [t[..n], rest]
  }

  /** Splitting a token, one space and a text that does not start with
      whitespace gives back exactly the token and the text. */
  lemma {:induction false} SplitOnceAtSpace(k: string, w: string)
    requires k != [] && NoSpace(k)
    requires w != [] && !IsSpace(w[0])
    ensures SplitOnce(k + " " + w) == [k, w]
  {
    var s := k + " " + w;
    var sp := " " + w;
    assert s == k + sp;
    assert TrimLeft(s) == s by { assert s[0] == k[0]; }
    TokenEndAfter(k, sp);
    assert s[..|k|] == k;
    assert s[|k|..] == sp;
    assert TrimLeft(sp) == w by { assert sp[1..] == w; }
  }

  /** `lstrip` drops a whitespace run in front of a text that does not
      start with whitespace. */
  lemma {:induction false} TrimLeftSpaces(ws: string, t: string)
    requires AllSpace(ws)
    requires t == [] || !IsSpace(t[0])
    ensures TrimLeft(ws + t) == t
    decreases |ws|
  {
    if ws == [] {
      assert ws + t == t;
    } else {
      assert (ws + t)[1..] == ws[1..] + t;
      TrimLeftSpaces(ws[1..], t);
    }
  }

  /** A space-free token followed only by whitespace is one token long. */
  lemma {:induction false} TokenEndWhole(tok: string, ws: string)
    requires NoSpace(tok) && AllSpace(ws)
    ensures TokenEnd(tok + ws) == |tok|
    decreases |tok|
  {
    if tok == [] {
      assert tok + ws == ws;
    } else {
      assert (tok + ws)[1..] == tok[1..] + ws;
      TokenEndWhole(tok[1..], ws);
    }
  }

  /** A text holding at most one token, whatever whitespace surrounds it,
      splits into that token alone, or into nothing when there is none. */
  lemma {:induction false} SplitOnceOneToken(ws: string, tok: string, ws': string)
    requires AllSpace(ws) && NoSpace(tok) && AllSpace(ws')
    ensures SplitOnce(ws + tok + ws') == if tok == [] then [] else [tok]
  {
    var s := ws + tok + ws';
    if tok == [] {
      assert AllSpace(s) by {
        forall i | 0 <= i < |s| ensures IsSpace(s[i]) {
          if i < |ws| { assert s[i] == ws[i]; } else { assert s[i] == ws'[i - |ws|]; }
        }
      }
    } else {
      var t := tok + ws';
      assert s == ws + t;
      assert t[0] == tok[0];
      TrimLeftSpaces(ws, t);
      TokenEndWhole(tok, ws');
      assert t[..|tok|] == tok;
      assert t[|tok|..] == ws';
      assert ws' == ws' + [];
      TrimLeftSpaces(ws', []);
    }
  }

  /** `split(maxsplit=1)` splits on any whitespace run, not only one space:
      the first token, then the rest with its leading whitespace dropped. */
  lemma {:induction false} SplitOnceGeneral(ws: string, k: string, ws': string, w: string)
    requires AllSpace(ws) && AllSpace(ws') && ws' != []
    requires k != [] && NoSpace(k)
    requires w != [] && !IsSpace(w[0])
    ensures SplitOnce(ws + k + ws' + w) == [k, w]
  {
    var rest := ws' + w;
    var t := k + rest;
    assert ws + k + ws' + w == ws + t;
    assert t[0] == k[0];
    TrimLeftSpaces(ws, t);
    assert rest[0] == ws'[0];
    TokenEndAfter(k, rest);
    assert t[..|k|] == k;
    assert t[|k|..] == rest;
    TrimLeftSpaces(ws', w);
  }

  /** A token followed by a text that starts with whitespace and does not
      end with it splits into the token and that text, lstripped. */
  lemma {:induction false} SplitOnceAfter(k: string, r: string)
    requires k != [] && NoSpace(k)
    requires r != [] && IsSpace(r[0]) && !IsSpace(r[|r| - 1])
    ensures TrimLeft(r) != []
    ensures SplitOnce(k + r) == [k, TrimLeft(r)]
  {
    var t := TrimLeft(r);
    TrimLeftSuffix(r);
    var ws := r[..|r| - |t|];
    assert AllSpace(ws);
    assert |ws| < |r| by {
      assert !IsSpace(r[|r| - 1]);
    }
    assert |t| < |r| by {
      assert t[0] == r[|r| - |t|];
    }
    assert r == ws + t;
    assert k + r == [] + k + ws + t;
    SplitOnceGeneral([], k, ws, t);
  }

  /** `s.split(sep)`: the pieces between occurrences of `sep`; an empty text
      gives one empty piece. */
  function SplitOn(s: string, sep: char): (pieces: seq<string>)
    ensures |pieces| >= 1
    ensures forall j :: 0 <= j < |pieces| ==> sep !in pieces[j]
  {
    if s == [] then
      [[]]
    else
      var tail := SplitOn(s[1..], sep);
      if s[0] == sep then [[]] + tail else [[s[0]] + tail[0]] + tail[1..]
  }

  /** `sep.join(pieces)` */
  function Join(pieces: seq<string>, sep: char): string {
    if pieces == [] then []
    else if |pieces| == 1 then pieces[0]
    else pieces[0] + [sep] + Join(pieces[1..], sep)
  }

  /** Joining the pieces of a split gives the text back. */
  lemma {:induction false} JoinSplitOn(s: string, sep: char)
    ensures Join(SplitOn(s, sep), sep) == s
  {
    if s != [] {
      var tail := SplitOn(s[1..], sep);
      JoinSplitOn(s[1..], sep);
      if s[0] == sep {
        assert SplitOn(s, sep)[1..] == tail;
      } else {
        var ps := [[s[0]] + tail[0]] + tail[1..];
        if |tail| > 1 {
          assert ps[1..] == tail[1..];
          assert Join(tail, sep) == tail[0] + [sep] + Join(tail[1..], sep);
        }
      }
    }
  }

  /** Splitting a join of pieces free of `sep` gives the pieces back. */
  lemma {:induction false} SplitOnJoin(pieces: seq<string>, sep: char)
    requires |pieces| >= 1
    requires forall j :: 0 <= j < |pieces| ==> sep !in pieces[j]
    ensures SplitOn(Join(pieces, sep), sep) == pieces
    decreases |pieces|, |pieces[0]|
  {
    var p := pieces[0];
    if p == [] {
      if |pieces| > 1 {
        SplitOnJoin(pieces[1..], sep);
        assert Join(pieces, sep) == [sep] + Join(pieces[1..], sep);
        assert (Join(pieces, sep))[1..] == Join(pieces[1..], sep);
      }
    } else {
      var shorter := [p[1..]] + pieces[1..];
      assert sep !in shorter[0] by { assert forall c :: c in p[1..] ==> c in p; }
      SplitOnJoin(shorter, sep);
      var j := Join(pieces, sep);
      assert j == [p[0]] + Join(shorter, sep) by {
        if |pieces| > 1 {
          assert shorter[1..] == pieces[1..];
        }
      }
      assert j[1..] == Join(shorter, sep);
      assert p[0] != sep by { assert p[0] in p; }
      assert [p[0]] + p[1..] == p;
    }
  }
}
