/** Splitting at a separator, as String.prototype.split does. */
module Splitting {
  function Split<T(==)>(s: seq<T>, sep: T): (pieces: seq<seq<T>>)
    ensures |pieces| >= 1
  {
    if s == [] then [[]]
    else
      var rest := Split(s[1..], sep);
      if s[0] == sep then [[]] + rest else [[s[0]] + rest[0]] + rest[1..]
  }

  function Init<T>(s: seq<T>): seq<T>
    requires s != []
  {
    s[..|s| - 1]
  }

  function Last<T>(s: seq<T>): T
    requires s != []
  {
    s[|s| - 1]
  }

  lemma Associate<T>(a: seq<T>, b: seq<T>, c: seq<T>)
    ensures (a + b) + c == a + (b + c)
  {}

  function Joined<T>(pieces: seq<seq<T>>, sep: T): seq<T>
    requires pieces != []
  {
    if |pieces| == 1 then pieces[0] else pieces[0] + [sep] + Joined(pieces[1..], sep)
  }

  function Concat<T>(pieces: seq<seq<T>>): seq<T> {
    if pieces == [] then [] else Concat(Init(pieces)) + Last(pieces)
  }

  lemma {:induction false} ConcatAppend<T>(a: seq<seq<T>>, b: seq<seq<T>>)
    ensures Concat(a + b) == Concat(a) + Concat(b)
    decreases |b|
  {
    if b == [] {
      assert a + b == a;
    } else {
      assert Init(a + b) == a + Init(b) && Last(a + b) == Last(b);
      ConcatAppend(a, Init(b));
      Associate(Concat(a), Concat(Init(b)), Last(b));
    }
  }

  /** Splitting is the inverse of joining pieces without separators. */
  lemma {:induction false} SplitMeans<T>(s: seq<T>, sep: T)
    ensures Joined(Split(s, sep), sep) == s
    ensures forall p | p in Split(s, sep) :: sep !in p
  {
    if s != [] {
      var rest := Split(s[1..], sep);
      SplitMeans(s[1..], sep);
      if s[0] == sep {
        assert ([[]] + rest)[1..] == rest;
      } else {
        var first := [s[0]] + rest[0];
        assert ([first] + rest[1..])[1..] == rest[1..];
        if |rest| > 1 {
          assert first + [sep] + Joined(rest[1..], sep) == [s[0]] + (rest[0] + [sep] + Joined(rest[1..], sep));
        }
      }
    }
  }

  lemma GlueFirst<T>(x: T, rest: seq<seq<T>>, tail: seq<seq<T>>)
    requires |rest| > 1
    ensures var pieces := [[x] + rest[0]] + rest[1..];
            var more := Init(rest) + tail;
            [[x] + more[0]] + more[1..] == Init(pieces) + tail && Last(pieces) == Last(rest)
  {}

  lemma GlueEmpty<T>(rest: seq<seq<T>>, tail: seq<seq<T>>)
    requires rest != []
    ensures [[]] + (Init(rest) + tail) == Init([[]] + rest) + tail && Last([[]] + rest) == Last(rest)
  {}

  /** Text that arrives later only continues the last piece. */
  lemma {:induction false} SplitAppend<T>(a: seq<T>, b: seq<T>, sep: T)
    ensures Split(a + b, sep) == Init(Split(a, sep)) + Split(Last(Split(a, sep)) + b, sep)
  {
    if a == [] {
      assert a + b == b;
    } else {
      var rest := Split(a[1..], sep);
      assert (a + b)[1..] == a[1..] + b && (a + b)[0] == a[0];
      SplitAppend(a[1..], b, sep);
      if a[0] == sep {
        GlueEmpty(rest, Split(Last(rest) + b, sep));
      } else if |rest| == 1 {
        SplitMeans(a[1..], sep);
        assert [a[0]] + a[1..] == a;
      } else {
        GlueFirst(a[0], rest, Split(Last(rest) + b, sep));
      }
    }
  }

  lemma {:induction false} SplitNone<T>(s: seq<T>, sep: T)
    requires sep !in s
    ensures Split(s, sep) == [s]
  {
    if s != [] {
      SplitNone(s[1..], sep);
      assert s[0] in s && [s[0]] + s[1..] == s;
    }
  }

  /** One more element ends the last piece or joins it. */
  lemma SplitSnoc<T>(s: seq<T>, x: T, sep: T)
    ensures Split(s + [x], sep) == if x == sep then Split(s, sep) + [[]] else Init(Split(s, sep)) + [Last(Split(s, sep)) + [x]]
  {
    var raw := Split(s, sep);
    SplitAppend(s, [x], sep);
    SplitMeans(s, sep);
    if x == sep {
      EndsPiece(Last(raw), x);
      assert raw == Init(raw) + [Last(raw)];
    } else {
      SplitNone(Last(raw) + [x], sep);
    }
  }

  lemma {:induction false} EndsPiece<T>(s: seq<T>, sep: T)
    requires sep !in s
    ensures Split(s + [sep], sep) == [s, []]
  {
    if s == [] {
      assert s + [sep] == [sep] && [sep][1..] == [];
    } else {
      assert (s + [sep])[1..] == s[1..] + [sep];
      assert s[0] in s;
      EndsPiece(s[1..], sep);
      assert [s[0]] + s[1..] == s;
    }
  }
}
