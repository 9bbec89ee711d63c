/** The addresses of bridged sessions, as texts: a fixed beginning, a name, and twelve random
    hexadecimal digits. */
module GateAddresses {
  import opened Wrappers
  import opened GateRules

  /** Where the ranges of name characters begin and end. */
  lemma Characters()
    ensures forall c | c in "azAZ09" :: Alnum(c) && NameChar(c)
    ensures forall c | c in "`{@[/:" :: !Alnum(c) && !NameChar(c)
    ensures forall c | c in "_-" :: NameChar(c) && !Alnum(c)
    ensures forall c | c in " .,;+*()" :: !NameChar(c)
  {}

  lemma HexIs(c: char)
    ensures '0' <= c <= '9' || 'a' <= c <= 'f' <==> c in "0123456789abcdef"
  {
    var all := "0123456789abcdef";
    assert |all| == 16;
    if '0' <= c <= '9' {
      assert all[c as int - 48] == c;
    } else if 'a' <= c <= 'f' {
      assert all[c as int - 97 + 10] == c;
    }
  }

  /** A name of 1 to 46 characters that begins with a letter or digit, and the launch suffix. */
  predicate Address(a: string, name: string, suffix: string) {
    && a == "apcs-" + name + "-" + suffix
    && 1 <= |name| <= 46 && Alnum(name[0]) && (forall i | 0 <= i < |name| :: NameChar(name[i]))
    && |suffix| == 12 && forall i | 0 <= i < 12 :: suffix[i] in "0123456789abcdef"
  }

  lemma Parts(a: string)
    requires |a| >= 19
    ensures a == "apcs-" + a[5..|a| - 13] + "-" + a[|a| - 12..] <==> a[..5] == "apcs-" && a[|a| - 13] == '-'
  {
    var t := "apcs-" + a[5..|a| - 13] + "-" + a[|a| - 12..];
    assert |t| == |a| && t[..5] == "apcs-" && t[|a| - 13] == '-';
    assert a == a[..5] + a[5..|a| - 13] + [a[|a| - 13]] + a[|a| - 12..];
  }

  /** Generated addresses are exactly these. */
  lemma AddressesExactly(a: string)
    ensures GeneratedAddress(a) <==> |a| >= 19 && Address(a, a[5..|a| - 13], a[|a| - 12..])
  {
    if |a| >= 19 {
      var name, suffix := a[5..|a| - 13], a[|a| - 12..];
      Parts(a);
      forall c: char ensures '0' <= c <= '9' || 'a' <= c <= 'f' <==> c in "0123456789abcdef" {
        HexIs(c);
      }
      assert forall i | 0 <= i < 12 :: suffix[i] == a[|a| - 12 + i];
      assert forall i | 0 <= i < |name| :: name[i] == a[5 + i];
      assert forall i | |a| - 12 <= i < |a| :: a[i] == suffix[i - (|a| - 12)];
      assert forall i | 5 <= i < |a| - 13 :: a[i] == name[i - 5];
      assert Alnum(a[5]) ==> NameChar(a[5]);
      hide Alnum, NameChar;
    }
  }

  /** The address a stands in s, and no longer name runs into it. */
  predicate Stands(s: string, before: string, a: string, after: string) {
    && s == before + a + after && GeneratedAddress(a)
    && (before == "" || !NameChar(before[|before| - 1])) && (after == "" || !NameChar(after[0]))
  }

  /** A text contains an address where one stands that no longer name runs into. */
  lemma ContainsExactly(s: string)
    ensures ContainsAddress(s) <==> exists before, a, after :: Stands(s, before, a, after)
  {
    if ContainsAddress(s) {
      var before, a, after := Around(s);
    }
    if exists before, a, after :: Stands(s, before, a, after) {
      var before, a, after :| Stands(s, before, a, after);
      AddressLong(a);
      hide GeneratedAddress, NameChar;
      Between(before, a, after);
      var i, j := |before|, |before| + |a|;
      assert s[i..j] == a;
    }
  }

  lemma Between(before: string, a: string, after: string)
    ensures var s, i, j := before + a + after, |before|, |before| + |a|;
            s[i..j] == a && (i > 0 ==> s[i - 1] == before[i - 1]) && (j < |s| ==> after != "" && s[j] == after[0])
  {}

  lemma Around(s: string) returns (before: string, a: string, after: string)
    requires ContainsAddress(s)
    ensures Stands(s, before, a, after)
  {
    hide GeneratedAddress, NameChar;
    var i, j :| 0 <= i < j <= |s| && GeneratedAddress(s[i..j]) && (i == 0 || !NameChar(s[i - 1])) && (j == |s| || !NameChar(s[j]));
    before, a, after := s[..i], s[i..j], s[j..];
    Cut(s, i, j);
  }

  lemma Cut(s: string, i: nat, j: nat)
    requires i <= j <= |s|
    ensures s == s[..i] + s[i..j] + s[j..]
  {
    assert s[..i] + s[i..j] == s[..j];
  }

  lemma AddressLong(a: string)
    requires GeneratedAddress(a)
    ensures |a| >= 19
  {}
}
