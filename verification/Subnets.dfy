/** ip_to_subnet of lstm_model.py, on strings. */
module Subnets {

  /** Python's s.split(sep) for a one-character separator: always at least one part. */
  function Split(s: string, sep: char): (parts: seq<string>)
    ensures |parts| >= 1
    ensures forall p :: p in parts ==> sep !in p
  {
    if s == "" then [""]
    else
      var rest := Split(s[1..], sep);
      if s[0] == sep then [""] + rest else [[s[0]] + rest[0]] + rest[1..]
  }

  function Join(parts: seq<string>, sep: char): string
    requires |parts| >= 1
  {
    if |parts| == 1 then parts[0] else parts[0] + [sep] + Join(parts[1..], sep)
  }

  /** The first three of exactly four dotted parts; otherwise the first three of the parts between
      colons, if there are three; otherwise the address itself. */
  function IpToSubnet(ip: string): string {
    var parts := Split(ip, '.');
    if |parts| == 4 then Join(parts[..3], '.')
    else
      var parts6 := Split(ip, ':');
      if |parts6| >= 3 then Join(parts6[..3], ':') else ip
  }

  lemma {:induction false} SplitPrefix(p: string, sep: char, rest: string)
    requires sep !in p
    ensures Split(p + [sep] + rest, sep) == [p] + Split(rest, sep)
  {
    if p == "" {
      assert "" + [sep] + rest == [sep] + rest;
      assert ([sep] + rest)[1..] == rest;
    } else {
      SplitPrefix(p[1..], sep, rest);
      var s := p + [sep] + rest;
      assert s[1..] == p[1..] + [sep] + rest && s[0] == p[0];
      assert [p[0]] + p[1..] == p;
    }
  }

  lemma {:induction false} SplitWhole(p: string, sep: char)
    requires sep !in p
    ensures Split(p, sep) == [p]
  {
    if p != "" {
      SplitWhole(p[1..], sep);
      assert [p[0]] + p[1..] == p;
    }
  }

  /** Splitting undoes joining, so a subnet string determines the parts it was made of. */
  lemma {:induction false} SplitJoin(parts: seq<string>, sep: char)
    requires |parts| >= 1 && forall p :: p in parts ==> sep !in p
    ensures Split(Join(parts, sep), sep) == parts
  {
    if |parts| == 1 {
      SplitWhole(parts[0], sep);
    } else {
      SplitJoin(parts[1..], sep);
      SplitPrefix(parts[0], sep, Join(parts[1..], sep));
    }
  }

  lemma {:induction false} JoinSplit(s: string, sep: char)
    ensures Join(Split(s, sep), sep) == s
  {
    if s != "" {
      JoinSplit(s[1..], sep);
      var rest := Split(s[1..], sep);
      if s[0] == sep {
        assert ([""] + rest)[1..] == rest;
        assert s == "" + [sep] + s[1..];
      } else {
        JoinGrowsFirst(s[0], rest, sep);
        assert s == [s[0]] + s[1..];
      }
    }
  }

  lemma JoinGrowsFirst(c: char, parts: seq<string>, sep: char)
    requires |parts| >= 1
    ensures Join([[c] + parts[0]] + parts[1..], sep) == [c] + Join(parts, sep)
  {
    assert ([[c] + parts[0]] + parts[1..])[1..] == parts[1..];
  }

  /** Splitting is the only way to take a string apart: it finds every separator, and the parts put
      together again are the string. */
  lemma SplitIffJoin(s: string, parts: seq<string>, sep: char)
    requires |parts| >= 1
    ensures Split(s, sep) == parts <==> Join(parts, sep) == s && forall p :: p in parts ==> sep !in p
  {
    JoinSplit(s, sep);
    if forall p :: p in parts ==> sep !in p {
      SplitJoin(parts, sep);
    }
  }

  lemma {:induction false} JoinLast(parts: seq<string>, sep: char)
    requires |parts| >= 2
    ensures Join(parts, sep) == Join(parts[..|parts| - 1], sep) + [sep] + parts[|parts| - 1]
  {
    var n := |parts| - 1;
    if n > 1 {
      JoinLast(parts[1..], sep);
      assert parts[1..][..n - 1] == parts[..n][1..];
    }
  }

  /** The subnet of a dotted quad is the address without its last part; of an address with at least three
      groups between colons, those three groups; and any other address is a subnet of its own. */
  lemma SubnetIsWhatRemains(ip: string)
    ensures var dots, colons := Split(ip, '.'), Split(ip, ':');
            if |dots| == 4 then ip == IpToSubnet(ip) + ['.'] + dots[3]
            else if |colons| >= 3 then Split(IpToSubnet(ip), ':') == colons[..3]
            else IpToSubnet(ip) == ip
  {
    var dots, colons := Split(ip, '.'), Split(ip, ':');
    if |dots| == 4 {
      JoinSplit(ip, '.');
      JoinLast(dots, '.');
    } else if |colons| >= 3 {
      SplitJoin(colons[..3], ':');
    }
  }

  /** Two dotted-quad addresses share a subnet exactly when their first three parts agree. */
  lemma SameSubnetIffSamePrefix(ip1: string, ip2: string)
    requires |Split(ip1, '.')| == 4 && |Split(ip2, '.')| == 4
    ensures IpToSubnet(ip1) == IpToSubnet(ip2) <==> Split(ip1, '.')[..3] == Split(ip2, '.')[..3]
  {
    SplitJoin(Split(ip1, '.')[..3], '.');
    SplitJoin(Split(ip2, '.')[..3], '.');
  }

  /** Likewise for addresses written with colons: the first three groups decide. */
  lemma SameColonSubnetIffSamePrefix(ip1: string, ip2: string)
    requires |Split(ip1, '.')| != 4 && |Split(ip2, '.')| != 4
    requires |Split(ip1, ':')| >= 3 && |Split(ip2, ':')| >= 3
    ensures IpToSubnet(ip1) == IpToSubnet(ip2) <==> Split(ip1, ':')[..3] == Split(ip2, ':')[..3]
  {
    SplitJoin(Split(ip1, ':')[..3], ':');
    SplitJoin(Split(ip2, ':')[..3], ':');
  }
}
