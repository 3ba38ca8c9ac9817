/** The strings that stand for hosts and clusters as keys of the global maps, and the buffers they are printed into. */
module Aliases {
  import opened Text

  /** The C client keeps ports in 16 bits. */
  type Port = x: int | 0 <= x < 0x1_0000

  datatype Host = Host(name: string, port: Port)

  const MAX_PORT_SIZE := 6

  /** create_new_alias: "host:port". */
  function HostPort(h: Host): string {
    h.name + ":" + Decimal(h.port)
  }

  /** create_alias: "host:port:user;". */
  function HostPortUser(h: Host, user: string): string {
    h.name + ":" + Decimal(h.port) + ":" + user + ";"
  }

  /** The alias of a whole cluster: the aliases of its hosts in order. */
  function ClusterAlias(hosts: seq<Host>, user: string): string {
    if hosts == [] then "" else HostPortUser(hosts[0], user) + ClusterAlias(hosts[1..], user)
  }

  // ---------- Unique decoding ----------

  predicate Without(s: string, c: char) {
    forall k :: 0 <= k < |s| ==> s[k] != c
  }

  /** A separator that does not occur before it splits a string in one way only. */
  lemma {:induction false} FirstSeparator(a: string, x: string, b: string, y: string, c: char)
    requires Without(a, c) && Without(b, c) && a + [c] + x == b + [c] + y
    ensures a == b && x == y
  {
    var s, t := a + [c] + x, b + [c] + y;
    assert s[|a|] == c && t[|b|] == c;
    assert |a| == |b|;
    assert s[..|a|] == a && t[..|b|] == b;
    assert s[|a| + 1..] == x && t[|b| + 1..] == y;
  }

  lemma {:induction false} LastSeparator(a: string, x: string, b: string, y: string, c: char)
    requires Without(x, c) && Without(y, c) && a + [c] + x == b + [c] + y
    ensures a == b && x == y
  {
    var s, t := a + [c] + x, b + [c] + y;
    assert s[|a|] == c && t[|b|] == c;
    assert |a| == |b|;
    assert s[..|a|] == a && t[..|b|] == b;
    assert s[|a| + 1..] == x && t[|b| + 1..] == y;
  }

  lemma {:induction false} NumbersHaveNoSeparator(n: int)
    ensures Without(Decimal(n), ':') && Without(Decimal(n), ';')
  {
    var digits := Digits(if n < 0 then -n else n);
    assert AllDigits(digits);
  }

  /** "host:port" names one host and port only, whatever characters the host has. */
  lemma {:induction false} HostPortInjective(h: Host, g: Host)
    requires HostPort(h) == HostPort(g)
    ensures h == g
  {
    NumbersHaveNoSeparator(h.port);
    NumbersHaveNoSeparator(g.port);
    LastSeparator(h.name, Decimal(h.port), g.name, Decimal(g.port), ':');
    DecimalInjective(h.port, g.port);
  }

  lemma {:induction false} EntryIsNotEmpty(h: Host, u: string)
    ensures HostPortUser(h, u) != ""
  {
  }

  // ---------- Lists without the confusing separators ----------

  predicate PlainHosts(hosts: seq<Host>) {
    forall k :: 0 <= k < |hosts| ==> Without(hosts[k].name, ':')
  }

  predicate NoSemicolons(hosts: seq<Host>) {
    forall k :: 0 <= k < |hosts| ==> Without(hosts[k].name, ';')
  }

  /** One entry and what follows it can be read off the front of an alias if no host has a ':'. */
  lemma {:induction false} EntryDecodes(h: Host, u: string, rest: string, g: Host, v: string, more: string)
    requires Without(h.name, ':') && Without(g.name, ':') && Without(u, ';') && Without(v, ';')
    requires HostPortUser(h, u) + rest == HostPortUser(g, v) + more
    ensures h == g && u == v && rest == more
  {
    hide Decimal, Without;
    var p, q := Decimal(h.port), Decimal(g.port);
    var x, y := p + ":" + (u + ";" + rest), q + ":" + (v + ";" + more);
    assert HostPortUser(h, u) + rest == h.name + [':'] + x;
    assert HostPortUser(g, v) + more == g.name + [':'] + y;
    FirstSeparator(h.name, x, g.name, y, ':');
    NumbersHaveNoSeparator(h.port);
    NumbersHaveNoSeparator(g.port);
    FirstSeparator(p, u + ";" + rest, q, v + ";" + more, ':');
    DecimalInjective(h.port, g.port);
    FirstSeparator(u, rest, v, more, ';');
  }

  /** The same if no host and no user has a ';' and no user a ':'; hosts may have a ':', as IPv6 addresses do. */
  lemma {:induction false} EntryDecodesPlainUsers(h: Host, u: string, rest: string, g: Host, v: string, more: string)
    requires Without(h.name, ';') && Without(g.name, ';')
    requires Without(u, ';') && Without(v, ';') && Without(u, ':') && Without(v, ':')
    requires HostPortUser(h, u) + rest == HostPortUser(g, v) + more
    ensures h == g && u == v && rest == more
  {
    HostPortHasNoSemicolon(h);
    HostPortHasNoSemicolon(g);
    var a, b := HostPort(h) + [':'] + u, HostPort(g) + [':'] + v;
    EntryAsParts(h, u, rest);
    EntryAsParts(g, v, more);
    hide HostPort, HostPortUser;
    FirstSeparator(a, rest, b, more, ';');
    LastSeparator(HostPort(h), u, HostPort(g), v, ':');
    HostPortInjective(h, g);
  }

  lemma {:induction false} HostPortHasNoSemicolon(h: Host)
    requires Without(h.name, ';')
    ensures Without(HostPort(h), ';')
  {
    hide Decimal;
    NumbersHaveNoSeparator(h.port);
  }

  lemma {:induction false} EntryAsParts(h: Host, u: string, rest: string)
    ensures HostPortUser(h, u) + rest == (HostPort(h) + [':'] + u) + [';'] + rest
  {
    hide Decimal;
  }

  lemma {:induction false} SplitAtSemicolon(u: string) returns (first: string, second: string)
    requires !Without(u, ';')
    ensures u == first + [';'] + second && Without(first, ';')
  {
    if u[0] == ';' {
      first, second := "", u[1..];
    } else {
      first, second := SplitAtSemicolon(u[1..]);
      first := [u[0]] + first;
    }
  }

  /** For one user, whatever characters it has, hosts without a ';' are read off the front. */
  lemma {:induction false} EntryDecodesForUser(h: Host, rest: string, g: Host, more: string, u: string)
    requires Without(h.name, ';') && Without(g.name, ';')
    requires HostPortUser(h, u) + rest == HostPortUser(g, u) + more
    ensures h == g && rest == more
  {
    HostPortHasNoSemicolon(h);
    HostPortHasNoSemicolon(g);
    EntryAsParts(h, u, rest);
    EntryAsParts(g, u, more);
    hide HostPort, HostPortUser;
    var first, x, y := u, rest, more;
    if !Without(u, ';') {
      var second;
      first, second := SplitAtSemicolon(u);
      x, y := second + [';'] + rest, second + [';'] + more;
      assert (HostPort(h) + [':'] + u) + [';'] + rest == (HostPort(h) + [':'] + first) + [';'] + x;
      assert (HostPort(g) + [':'] + u) + [';'] + more == (HostPort(g) + [':'] + first) + [';'] + y;
      assert x[|second| + 1..] == rest && y[|second| + 1..] == more;
    }
    FirstSeparator(HostPort(h) + [':'] + first, x, HostPort(g) + [':'] + first, y, ';');
    assert HostPort(h) + [':'] + first == HostPort(h) + ([':'] + first);
    assert HostPort(g) + [':'] + first == HostPort(g) + ([':'] + first);
    SameSuffix(HostPort(h), HostPort(g), [':'] + first);
    HostPortInjective(h, g);
  }

  lemma {:induction false} SameSuffix(a: string, b: string, end: string)
    requires a + end == b + end
    ensures a == b
  {
    assert |a| == |b|;
    assert (a + end)[..|a|] == a && (b + end)[..|b|] == b;
  }

  // ---------- What one user's aliases confuse ----------

  /** A host name that holds a whole entry of the user: "n:q:u;" and what follows. */
  function Embedded(n: string, q: Port, u: string, m: string): string {
    HostPortUser(Host(n, q), u) + m
  }

  ghost predicate Embeds(name: string, u: string) {
    exists n, q: Port, m :: name == Embedded(n, q, u, m)
  }

  ghost predicate NoneEmbeds(hosts: seq<Host>, u: string) {
    forall k :: 0 <= k < |hosts| ==> !Embeds(hosts[k].name, u)
  }

  lemma {:induction false} SemicolonFreeDoesNotEmbed(hosts: seq<Host>, u: string)
    requires NoSemicolons(hosts)
    ensures NoneEmbeds(hosts, u)
  {
    hide Embeds, Without;
    forall k | 0 <= k < |hosts| ensures !Embeds(hosts[k].name, u) {
      if Embeds(hosts[k].name, u) {
        EmbeddingHasSemicolon(hosts[k].name, u);
      }
    }
  }

  lemma {:induction false} EmbeddingHasSemicolon(name: string, u: string)
    requires Embeds(name, u)
    ensures !Without(name, ';')
  {
    hide Decimal;
    var n, q: Port, m :| name == Embedded(n, q, u, m);
    var entry := HostPortUser(Host(n, q), u);
    assert name[|entry| - 1] == entry[|entry| - 1] == ';';
  }

  /** Every host whose name embeds an entry is confused with two hosts, whatever follows it in the list. */
  lemma {:induction false} EmbeddedHostCollides(n: string, q: Port, m: string, p: Port, u: string, rest: seq<Host>)
    ensures ClusterAlias([Host(Embedded(n, q, u, m), p)] + rest, u) == ClusterAlias([Host(n, q), Host(m, p)] + rest, u)
    ensures [Host(Embedded(n, q, u, m), p)] + rest != [Host(n, q), Host(m, p)] + rest
  {
    hide Decimal;
    var one, two := [Host(Embedded(n, q, u, m), p)] + rest, [Host(n, q), Host(m, p)] + rest;
    assert one[1..] == rest && two[1..] == [Host(m, p)] + rest && two[1..][1..] == rest;
    assert |one| < |two|;
    assert HostPortUser(Host(Embedded(n, q, u, m), p), u) ==
           HostPortUser(Host(n, q), u) + HostPortUser(Host(m, p), u);
  }

  lemma {:induction false} NoSemicolonAfterName(g: Host, u: string)
    requires Without(u, ';')
    ensures var b := HostPortUser(g, u); forall k :: |g.name| <= k < |b| - 1 ==> b[k] != ';'
  {
    hide Decimal;
    NumbersHaveNoSeparator(g.port);
    assert HostPortUser(g, u) == g.name + (":" + Decimal(g.port) + ":" + u) + ";";
  }

  lemma {:induction false} ShorterEntryIsEmbedded(h: Host, rest: string, g: Host, more: string, u: string)
    requires Without(u, ';') && HostPortUser(h, u) + rest == HostPortUser(g, u) + more
    requires |HostPortUser(h, u)| < |HostPortUser(g, u)|
    ensures Embeds(g.name, u)
  {
    hide Decimal;
    NoSemicolonAfterName(g, u);
    var a, b := HostPortUser(h, u), HostPortUser(g, u);
    assert a == (a + rest)[..|a|] == (b + more)[..|a|] == b[..|a|];
    assert b[|a| - 1] == a[|a| - 1] == ';';
    assert |a| <= |g.name|;
    assert b[..|g.name|] == g.name;
    assert g.name[..|a|] == a;
    assert g.name == Embedded(h.name, h.port, u, g.name[|a|..]);
  }

  lemma {:induction false} SameEntries(h: Host, rest: string, g: Host, more: string, u: string)
    requires |HostPortUser(h, u)| == |HostPortUser(g, u)|
    requires HostPortUser(h, u) + rest == HostPortUser(g, u) + more
    ensures h == g && rest == more
  {
    hide Decimal;
    var a, b := HostPortUser(h, u), HostPortUser(g, u);
    assert (a + rest)[..|a|] == a && (b + more)[..|b|] == b && (a + rest)[|a|..] == rest && (b + more)[|b|..] == more;
    EntryAsParts(h, u, "");
    EntryAsParts(g, u, "");
    assert a == HostPort(h) + ([':'] + u + [';']) && b == HostPort(g) + ([':'] + u + [';']);
    SameSuffix(HostPort(h), HostPort(g), [':'] + u + [';']);
    HostPortInjective(h, g);
  }

  /** An alias ends with the entry of its last host. */
  lemma {:induction false} AliasEnds(hosts: seq<Host>, u: string) returns (x: string)
    requires hosts != []
    ensures ClusterAlias(hosts, u) == x + HostPortUser(hosts[|hosts| - 1], u)
  {
    hide HostPortUser;
    if |hosts| == 1 {
      x := "";
    } else {
      var y := AliasEnds(hosts[1..], u);
      x := HostPortUser(hosts[0], u) + y;
    }
  }

  lemma {:induction false} OneHostAsMany(h: Host, others: seq<Host>, u: string)
    requires |others| >= 2 && ClusterAlias([h], u) == ClusterAlias(others, u)
    ensures Embeds(h.name, u)
  {
    hide Decimal, ClusterAlias;
    var g := others[0];
    var first, last := HostPortUser(g, u), others[|others| - 1];
    var x := AliasEnds(others[1..], u);
    AliasCons(h, [], u);
    AliasCons(g, others[1..], u);
    assert [g] + others[1..] == others && [h] + [] == [h];
    NoHostsNoAlias(u);
    var end := ":" + u + ";";
    assert HostPortUser(h, u) == (h.name + [':'] + Decimal(h.port)) + end;
    assert first + (x + HostPortUser(last, u)) == (first + (x + last.name) + [':'] + Decimal(last.port)) + end;
    SameSuffix(h.name + [':'] + Decimal(h.port), first + (x + last.name) + [':'] + Decimal(last.port), end);
    NumbersHaveNoSeparator(h.port);
    NumbersHaveNoSeparator(last.port);
    LastSeparator(h.name, Decimal(h.port), first + (x + last.name), Decimal(last.port), ':');
    assert h.name == Embedded(g.name, g.port, u, x + last.name);
  }

  lemma {:induction false} AliasCons(h: Host, rest: seq<Host>, u: string)
    ensures ClusterAlias([h] + rest, u) == HostPortUser(h, u) + ClusterAlias(rest, u)
  {
    hide HostPortUser;
    assert ([h] + rest)[1..] == rest;
  }

  lemma {:induction false} NoHostsNoAlias(u: string)
    ensures ClusterAlias([], u) == ""
  {
  }

  // ---------- One list for every alias of a user ----------

  /** A shorter entry of the user is a beginning of the host's. */
  ghost predicate HasShorter(h: Host, u: string) {
    exists g: Host :: HostPortUser(g, u) < HostPortUser(h, u)
  }

  /** No entry but the last begins with a shorter one, and the last host's name holds none. */
  ghost predicate IsNormal(hosts: seq<Host>, u: string) {
    && (forall k :: 0 <= k < |hosts| - 1 ==> !HasShorter(hosts[k], u))
    && (hosts != [] ==> !Embeds(hosts[|hosts| - 1].name, u))
  }

  lemma {:induction false} EmbeddingIsShorter(h: Host, u: string)
    requires Embeds(h.name, u)
    ensures HasShorter(h, u)
  {
    hide Decimal;
    var n, q: Port, m :| h.name == Embedded(n, q, u, m);
    var a, b := HostPortUser(Host(n, q), u), HostPortUser(h, u);
    assert b[..|a|] == a;
    assert a < b;
  }

  lemma {:induction false} ShorterIsEmbedding(h: Host, u: string)
    requires Without(u, ';') && HasShorter(h, u)
    ensures Embeds(h.name, u)
  {
    hide HostPortUser, Embeds;
    var g: Host :| HostPortUser(g, u) < HostPortUser(h, u);
    var a, b := HostPortUser(g, u), HostPortUser(h, u);
    assert a + b[|a|..] == b + "";
    ShorterEntryIsEmbedded(g, b[|a|..], h, "", u);
  }

  /** For a user without ';' the normal lists are those in which no host name holds an entry of the user. */
  lemma {:induction false} NormalIffNoneEmbeds(hosts: seq<Host>, u: string)
    requires Without(u, ';')
    ensures IsNormal(hosts, u) <==> NoneEmbeds(hosts, u)
  {
    hide HasShorter, Embeds;
    forall k | 0 <= k < |hosts| ensures HasShorter(hosts[k], u) <==> Embeds(hosts[k].name, u) {
      if Embeds(hosts[k].name, u) {
        EmbeddingIsShorter(hosts[k], u);
      }
      if HasShorter(hosts[k], u) {
        ShorterIsEmbedding(hosts[k], u);
      }
    }
  }

  lemma {:induction false} OneEntryAlias(h: Host, u: string)
    ensures ClusterAlias([h], u) == HostPortUser(h, u)
  {
    hide HostPortUser;
    AliasCons(h, [], u);
    NoHostsNoAlias(u);
    assert [h] + [] == [h];
  }

  lemma {:induction false} SplitFirst(hosts: seq<Host>, u: string)
    requires hosts != []
    ensures ClusterAlias(hosts, u) == HostPortUser(hosts[0], u) + ClusterAlias(hosts[1..], u)
  {
  }

  /** The longer first entry of two equal aliases has the shorter one in front, and a whole list of its own behind. */
  lemma {:induction false} LongerFirstEntry(hosts: seq<Host>, others: seq<Host>, u: string)
    requires hosts != [] && others != [] && ClusterAlias(hosts, u) == ClusterAlias(others, u)
    requires |HostPortUser(hosts[0], u)| < |HostPortUser(others[0], u)|
    ensures !IsNormal(others, u)
  {
    hide HostPortUser, ClusterAlias, Embeds;
    SplitFirst(hosts, u);
    SplitFirst(others, u);
    var a, b := HostPortUser(hosts[0], u), HostPortUser(others[0], u);
    var x, y := ClusterAlias(hosts[1..], u), ClusterAlias(others[1..], u);
    assert a == (a + x)[..|a|] == (b + y)[..|a|] == b[..|a|];
    assert HasShorter(others[0], u);
    if |others| == 1 {
      assert others == [others[0]];
      OneEntryAlias(others[0], u);
      if |hosts| == 1 {
        assert hosts == [hosts[0]];
        OneEntryAlias(hosts[0], u);
      }
      OneHostAsMany(others[0], hosts, u);
    }
  }

  lemma {:induction false} NormalIsUnique(hosts: seq<Host>, others: seq<Host>, u: string)
    requires IsNormal(hosts, u) && IsNormal(others, u) && ClusterAlias(hosts, u) == ClusterAlias(others, u)
    ensures hosts == others
    decreases |hosts|
  {
    hide HostPortUser, ClusterAlias, HasShorter, Embeds;
    NoHostsNoAlias(u);
    if hosts == [] || others == [] {
      if hosts != [] {
        SplitFirst(hosts, u);
        EntryIsNotEmpty(hosts[0], u);
      }
      if others != [] {
        SplitFirst(others, u);
        EntryIsNotEmpty(others[0], u);
      }
    } else {
      if |HostPortUser(hosts[0], u)| < |HostPortUser(others[0], u)| {
        LongerFirstEntry(hosts, others, u);
      } else if |HostPortUser(others[0], u)| < |HostPortUser(hosts[0], u)| {
        LongerFirstEntry(others, hosts, u);
      }
      SplitFirst(hosts, u);
      SplitFirst(others, u);
      SameEntries(hosts[0], ClusterAlias(hosts[1..], u), others[0], ClusterAlias(others[1..], u), u);
      NormalIsUnique(hosts[1..], others[1..], u);
      assert hosts == [hosts[0]] + hosts[1..] && others == [others[0]] + others[1..];
    }
  }

  /** The embedded entry that a name is split at. */
  ghost function SplitName(name: string, u: string): (r: (string, Port, string))
    requires Embeds(name, u)
    ensures name == Embedded(r.0, r.1, u, r.2)
  {
    var n, q: Port, m :| name == Embedded(n, q, u, m);
    (n, q, m)
  }

  ghost function ShorterEntry(h: Host, u: string): (g: Host)
    requires HasShorter(h, u)
    ensures HostPortUser(g, u) < HostPortUser(h, u)
  {
    var g: Host :| HostPortUser(g, u) < HostPortUser(h, u);
    g
  }

  /** What is left of the host's entry behind a shorter one. */
  function Remainder(h: Host, g: Host, u: string): string
    requires HostPortUser(g, u) < HostPortUser(h, u)
  {
    HostPortUser(h, u)[|HostPortUser(g, u)|..]
  }

  /** The remainder of a first entry can be moved to the name of the next host. */
  lemma {:induction false} RemainderMoves(h: Host, g: Host, next: Host, rest: seq<Host>, u: string)
    requires HostPortUser(g, u) < HostPortUser(h, u)
    ensures ClusterAlias([g, Host(Remainder(h, g, u) + next.name, next.port)] + rest, u) ==
            ClusterAlias([h, next] + rest, u)
  {
    hide Decimal, ClusterAlias;
    var r := Remainder(h, g, u);
    var moved := Host(r + next.name, next.port);
    var a, b := HostPortUser(g, u), HostPortUser(h, u);
    assert b == a + r;
    assert HostPortUser(moved, u) == r + HostPortUser(next, u);
    TwoEntries(g, moved, rest, u);
    TwoEntries(h, next, rest, u);
  }

  lemma {:induction false} TwoEntries(h: Host, g: Host, rest: seq<Host>, u: string)
    ensures ClusterAlias([h, g] + rest, u) == HostPortUser(h, u) + HostPortUser(g, u) + ClusterAlias(rest, u)
  {
    hide HostPortUser, ClusterAlias;
    AliasCons(h, [g] + rest, u);
    AliasCons(g, rest, u);
    assert [h, g] + rest == [h] + ([g] + rest);
  }

  function FirstLength(hosts: seq<Host>, u: string): nat {
    if hosts == [] then 0 else |HostPortUser(hosts[0], u)|
  }

  /** The normal list of the alias: a first entry that begins with a shorter one is cut there, again and again. */
  ghost function Normal(hosts: seq<Host>, u: string): (r: seq<Host>)
    ensures ClusterAlias(r, u) == ClusterAlias(hosts, u) && IsNormal(r, u)
    decreases |ClusterAlias(hosts, u)|, FirstLength(hosts, u)
  {
    if hosts == [] then
      []
    else if |hosts| == 1 then
      if Embeds(hosts[0].name, u) then
        var (n, q, m) := SplitName(hosts[0].name, u);
        SplitIsSmaller(hosts[0], n, q, m, u);
        assert hosts == [hosts[0]];
        Normal([Host(n, q), Host(m, hosts[0].port)], u)
      else
        hosts
    else if HasShorter(hosts[0], u) then
      var g := ShorterEntry(hosts[0], u);
      var moved := Host(Remainder(hosts[0], g, u) + hosts[1].name, hosts[1].port);
      RemainderMoves(hosts[0], g, hosts[1], hosts[2..], u);
      assert hosts == [hosts[0], hosts[1]] + hosts[2..];
      Normal([g, moved] + hosts[2..], u)
    else
      TailIsSmaller(hosts, u);
      var rest := Normal(hosts[1..], u);
      NormalCons(hosts, rest, u);
      [hosts[0]] + rest
  }

  lemma {:induction false} SplitIsSmaller(h: Host, n: string, q: Port, m: string, u: string)
    requires h.name == Embedded(n, q, u, m)
    ensures ClusterAlias([Host(n, q), Host(m, h.port)], u) == ClusterAlias([h], u)
    ensures |HostPortUser(Host(n, q), u)| < |HostPortUser(h, u)|
  {
    hide ClusterAlias, Decimal;
    EmbeddedHostCollides(n, q, m, h.port, u, []);
    assert h == Host(Embedded(n, q, u, m), h.port);
    assert [h] + [] == [h] && [Host(n, q), Host(m, h.port)] + [] == [Host(n, q), Host(m, h.port)];
  }

  lemma {:induction false} TailIsSmaller(hosts: seq<Host>, u: string)
    requires hosts != []
    ensures |ClusterAlias(hosts[1..], u)| < |ClusterAlias(hosts, u)|
  {
    hide HostPortUser;
    EntryIsNotEmpty(hosts[0], u);
  }

  lemma {:induction false} NormalCons(hosts: seq<Host>, rest: seq<Host>, u: string)
    requires |hosts| >= 2 && !HasShorter(hosts[0], u)
    requires IsNormal(rest, u) && ClusterAlias(rest, u) == ClusterAlias(hosts[1..], u)
    ensures ClusterAlias([hosts[0]] + rest, u) == ClusterAlias(hosts, u) && IsNormal([hosts[0]] + rest, u)
  {
    hide HostPortUser, HasShorter, Embeds;
    AliasCons(hosts[0], rest, u);
    EntryIsNotEmpty(hosts[1], u);
    assert rest != [];
    var r := [hosts[0]] + rest;
    assert r[|r| - 1] == rest[|rest| - 1];
    forall k | 0 <= k < |r| - 1 ensures !HasShorter(r[k], u) {
      assert k > 0 ==> r[k] == rest[k - 1];
    }
  }

  /**
   * For any user, two host lists have the same alias if and only if they have the same normal list; a list is its own
   * normal list if and only if it is normal.
   */
  lemma {:induction false} SameAliasIffSameNormal(hosts: seq<Host>, others: seq<Host>, u: string)
    ensures ClusterAlias(hosts, u) == ClusterAlias(others, u) <==> Normal(hosts, u) == Normal(others, u)
    ensures Normal(hosts, u) == hosts <==> IsNormal(hosts, u)
  {
    hide Normal, IsNormal, ClusterAlias;
    if ClusterAlias(hosts, u) == ClusterAlias(others, u) {
      NormalIsUnique(Normal(hosts, u), Normal(others, u), u);
    }
    if IsNormal(hosts, u) {
      NormalIsUnique(Normal(hosts, u), hosts, u);
    }
  }

  // ---------- Conditions that tell clusters apart ----------

  /** Entries can be read off the front of both aliases. */
  predicate Readable(hosts: seq<Host>, u: string, others: seq<Host>, v: string) {
    || (PlainHosts(hosts) && PlainHosts(others) && Without(u, ';') && Without(v, ';'))
    || (NoSemicolons(hosts) && NoSemicolons(others)
        && Without(u, ';') && Without(v, ';') && Without(u, ':') && Without(v, ':'))
    || (u == v && NoSemicolons(hosts) && NoSemicolons(others))
  }

  ghost predicate ToldApart(hosts: seq<Host>, u: string, others: seq<Host>, v: string) {
    Readable(hosts, u, others, v) || (u == v && IsNormal(hosts, u) && IsNormal(others, u))
  }

  lemma {:induction false} ReadableDecodes(hosts: seq<Host>, u: string, others: seq<Host>, v: string,
                                           rest: string, more: string)
    requires hosts != [] && others != [] && Readable(hosts, u, others, v)
    requires HostPortUser(hosts[0], u) + rest == HostPortUser(others[0], v) + more
    ensures hosts[0] == others[0] && u == v && rest == more
    ensures Readable(hosts[1..], u, others[1..], v)
  {
    hide HostPortUser, Without;
    var h, g := hosts[0], others[0];
    if PlainHosts(hosts) && PlainHosts(others) && Without(u, ';') && Without(v, ';') {
      EntryDecodes(h, u, rest, g, v, more);
    } else if u == v && NoSemicolons(hosts) && NoSemicolons(others) {
      EntryDecodesForUser(h, rest, g, more, u);
    } else {
      EntryDecodesPlainUsers(h, u, rest, g, v, more);
    }
  }

  lemma {:induction false} ReadableInjective(hosts: seq<Host>, u: string, others: seq<Host>, v: string)
    requires Readable(hosts, u, others, v)
    ensures ClusterAlias(hosts, u) == ClusterAlias(others, v) <==> hosts == others && (hosts == [] || u == v)
    decreases |hosts|
  {
    hide Readable, HostPortUser;
    if hosts != [] && others != [] && ClusterAlias(hosts, u) == ClusterAlias(others, v) {
      ReadableDecodes(hosts, u, others, v, ClusterAlias(hosts[1..], u), ClusterAlias(others[1..], v));
      ReadableInjective(hosts[1..], u, others[1..], v);
      assert hosts == [hosts[0]] + hosts[1..] && others == [others[0]] + others[1..];
    } else if hosts != [] {
      EntryIsNotEmpty(hosts[0], u);
    } else if others != [] {
      EntryIsNotEmpty(others[0], v);
    }
  }

  /**
   * A cluster alias names one host list, and one user unless the list is empty, under any of four conditions: no ':'
   * in hosts and no ';' in users; no ';' in hosts and neither separator in users; one user and no ';' in hosts; one
   * user and normal lists.
   */
  lemma {:induction false} ClusterAliasInjective(hosts: seq<Host>, u: string, others: seq<Host>, v: string)
    requires ToldApart(hosts, u, others, v)
    ensures ClusterAlias(hosts, u) == ClusterAlias(others, v) <==> hosts == others && (hosts == [] || u == v)
  {
    hide Readable, IsNormal, ClusterAlias;
    if Readable(hosts, u, others, v) {
      ReadableInjective(hosts, u, others, v);
    } else if ClusterAlias(hosts, u) == ClusterAlias(others, v) {
      NormalIsUnique(hosts, others, u);
    }
  }

  /** For one user, whatever characters it has, no ';' in hosts is enough. */
  lemma {:induction false} ClusterAliasInjectiveForUser(hosts: seq<Host>, others: seq<Host>, u: string)
    requires NoSemicolons(hosts) && NoSemicolons(others)
    ensures ClusterAlias(hosts, u) == ClusterAlias(others, u) <==> hosts == others
  {
    ClusterAliasInjective(hosts, u, others, u);
  }

  /** Some other host list has the same alias for the user. */
  ghost predicate Ambiguous(hosts: seq<Host>, u: string) {
    exists others :: others != hosts && ClusterAlias(others, u) == ClusterAlias(hosts, u)
  }

  /**
   * For any user, the lists that share their alias with another list are exactly those with two hosts or more, and
   * those whose only host embeds an entry of the user.
   */
  lemma {:induction false} AmbiguousIff(hosts: seq<Host>, u: string)
    ensures Ambiguous(hosts, u) <==> |hosts| >= 2 || (|hosts| == 1 && Embeds(hosts[0].name, u))
  {
    hide ClusterAlias, HostPortUser, Embedded;
    if |hosts| >= 2 {
      var h, g, rest := hosts[0], hosts[1], hosts[2..];
      EmbeddedHostCollides(h.name, h.port, g.name, g.port, u, rest);
      assert hosts == [h, g] + rest;
    } else if |hosts| == 1 && Embeds(hosts[0].name, u) {
      var (n, q, m) := SplitName(hosts[0].name, u);
      EmbeddedHostCollides(n, q, m, hosts[0].port, u, []);
      assert hosts == [Host(Embedded(n, q, u, m), hosts[0].port)] + [];
    } else if Ambiguous(hosts, u) {
      var others :| others != hosts && ClusterAlias(others, u) == ClusterAlias(hosts, u);
      ShortListIsAlone(hosts, others, u);
    }
  }

  lemma {:induction false} ShortListIsAlone(hosts: seq<Host>, others: seq<Host>, u: string)
    requires |hosts| <= 1 && ClusterAlias(others, u) == ClusterAlias(hosts, u)
    ensures others == hosts || (|hosts| == 1 && Embeds(hosts[0].name, u))
  {
    hide HostPortUser, Embeds;
    if hosts == [] || others == [] {
      if others != [] {
        EntryIsNotEmpty(others[0], u);
      }
      if hosts != [] {
        EntryIsNotEmpty(hosts[0], u);
      }
    } else {
      assert hosts == [hosts[0]];
      if |others| >= 2 {
        OneHostAsMany(hosts[0], others, u);
      } else {
        assert others == [others[0]];
        assert ClusterAlias(hosts, u) == HostPortUser(hosts[0], u) + "";
        assert ClusterAlias(others, u) == HostPortUser(others[0], u) + "";
        SameEntries(hosts[0], "", others[0], "", u);
      }
    }
  }

  // ---------- When two users can share an alias ----------

  /** The longer user is the shorter one behind a port number, which stands at its front or behind a ':'. */
  ghost predicate PortBefore(v: string, u: string) {
    exists x, r: Port :: EndsInColon(x) && v == AfterPort(x, r, u)
  }

  predicate EndsInColon(x: string) {
    x == "" || x[|x| - 1] == ':'
  }

  function AfterPort(x: string, r: Port, u: string): string {
    x + Decimal(r) + ":" + u
  }

  ghost predicate ShareAlias(u: string, v: string) {
    exists hosts, others :: hosts != [] && others != [] && ClusterAlias(hosts, u) == ClusterAlias(others, v)
  }

  /** The host whose entry for the shorter user is the given host's entry for the longer one. */
  function ShiftHost(h: Host, x: string, r: Port): Host
    requires EndsInColon(x)
  {
    Host(HostPort(h) + (if x == "" then "" else ":" + x[..|x| - 1]), r)
  }

  lemma {:induction false} ShiftedEntry(h: Host, x: string, r: Port, u: string)
    requires EndsInColon(x)
    ensures HostPortUser(ShiftHost(h, x, r), u) == HostPortUser(h, AfterPort(x, r, u))
  {
    hide Decimal;
    if x != "" {
      assert x == x[..|x| - 1] + ":";
    }
  }

  ghost function PortSplit(v: string, u: string): (r: (string, Port))
    requires PortBefore(v, u)
    ensures EndsInColon(r.0) && v == AfterPort(r.0, r.1, u)
  {
    var x, r: Port :| EndsInColon(x) && v == AfterPort(x, r, u);
    (x, r)
  }

  /** The hosts as hosts of the shorter user. */
  ghost function AsUser(hosts: seq<Host>, v: string, u: string): (r: seq<Host>)
    requires PortBefore(v, u)
    ensures ClusterAlias(r, u) == ClusterAlias(hosts, v) && |r| == |hosts|
  {
    if hosts == [] then
      []
    else
      var (x, p) := PortSplit(v, u);
      var rest := AsUser(hosts[1..], v, u);
      ShiftedEntry(hosts[0], x, p, u);
      AliasCons(ShiftHost(hosts[0], x, p), rest, u);
      [ShiftHost(hosts[0], x, p)] + rest
  }

  lemma {:induction false} PortBeforeShares(v: string, u: string)
    requires PortBefore(v, u)
    ensures ShareAlias(u, v) && ShareAlias(v, u)
  {
    hide ClusterAlias, PortBefore;
    var hosts := [Host("", 0)];
    assert ClusterAlias(AsUser(hosts, v, u), u) == ClusterAlias(hosts, v);
  }

  lemma {:induction false} SplitAtLastColon(w: string) returns (first: string, second: string)
    requires !Without(w, ':')
    ensures w == first + [':'] + second && Without(second, ':')
  {
    var k := |w| - 1;
    if w[k] == ':' {
      first, second := w[..k], "";
    } else {
      first, second := SplitAtLastColon(w[..k]);
      second := second + [w[k]];
    }
  }

  /** What stands before the shorter user in the longer one ends in a port number. */
  lemma {:induction false} EndsInPort(x: string, p: Port, y: string, w: string, u: string)
    requires x + [':'] + Decimal(p) == y + [':'] + w
    ensures PortBefore(w + ":" + u, u)
  {
    hide Decimal;
    NumbersHaveNoSeparator(p);
    if Without(w, ':') {
      LastSeparator(x, Decimal(p), y, w, ':');
      assert w + ":" + u == AfterPort("", p, u);
    } else {
      var first, second := SplitAtLastColon(w);
      assert y + [':'] + w == (y + [':'] + first) + [':'] + second;
      LastSeparator(x, Decimal(p), y + [':'] + first, second, ':');
      assert w + ":" + u == AfterPort(first + ":", p, u) && EndsInColon(first + ":");
    }
  }

  lemma {:induction false} EntryBehind(x: string, h: Host, u: string)
    ensures x + HostPortUser(h, u) == ((x + h.name + [':'] + Decimal(h.port)) + ":" + u) + ";"
  {
    hide Decimal;
  }

  lemma {:induction false} LongerUser(hosts: seq<Host>, u: string, others: seq<Host>, v: string)
    requires hosts != [] && others != [] && ClusterAlias(hosts, u) == ClusterAlias(others, v) && |u| < |v|
    ensures PortBefore(v, u)
  {
    hide Decimal, ClusterAlias, PortBefore, HostPortUser;
    var x := AliasEnds(hosts, u);
    var y := AliasEnds(others, v);
    var h, g := hosts[|hosts| - 1], others[|others| - 1];
    var a, b := x + h.name + [':'] + Decimal(h.port), y + g.name + [':'] + Decimal(g.port);
    EntryBehind(x, h, u);
    EntryBehind(y, g, v);
    SameSuffix(a + ":" + u, b + ":" + v, ";");
    var w := SuffixOfLonger(a, u, b, v);
    EndsInPort(x + h.name, h.port, b, w, u);
  }

  lemma {:induction false} SuffixOfLonger(a: string, u: string, b: string, v: string) returns (w: string)
    requires a + ":" + u == b + ":" + v && |u| < |v|
    ensures v == w + ":" + u && a == b + [':'] + w
  {
    var s, k := a + ":" + u, |v| - |u| - 1;
    w := v[..k];
    assert s[|b| + 1..] == v && s[|a| + 1..] == u && s[|a|] == ':';
    assert v[k + 1..] == u && v[k] == ':';
    assert a == s[..|a|] && (b + ":" + v)[..|a|] == b + ":" + v[..k];
  }

  /**
   * Two different users can have a common alias, for some non-empty host lists, if and only if one of them is the
   * other one behind a port number.
   */
  lemma {:induction false} UsersShareAliasIff(u: string, v: string)
    ensures ShareAlias(u, v) <==> u == v || PortBefore(u, v) || PortBefore(v, u)
  {
    hide ClusterAlias, PortBefore;
    if PortBefore(u, v) {
      PortBeforeShares(u, v);
    } else if PortBefore(v, u) {
      PortBeforeShares(v, u);
    } else if u == v {
      var hosts := [Host("", 0)];
      assert ClusterAlias(hosts, u) == ClusterAlias(hosts, v);
    } else if ShareAlias(u, v) {
      var hosts, others :| hosts != [] && others != [] && ClusterAlias(hosts, u) == ClusterAlias(others, v);
      if |u| < |v| {
        LongerUser(hosts, u, others, v);
      } else if |v| < |u| {
        LongerUser(others, v, hosts, u);
      } else {
        UsersOfOneLength(hosts, u, others, v);
      }
    }
  }

  /**
   * Any two clusters have the same alias exactly in these cases: one user, and the same normal list; one user behind
   * a port number of the other, and the same normal list once the longer user's hosts are read as hosts of the
   * shorter; no hosts at all.
   */
  lemma {:induction false} SameClusterAliasIff(hosts: seq<Host>, u: string, others: seq<Host>, v: string)
    ensures u == v ==>
              (ClusterAlias(hosts, u) == ClusterAlias(others, v) <==> Normal(hosts, u) == Normal(others, v))
    ensures PortBefore(v, u) ==>
              (ClusterAlias(hosts, u) == ClusterAlias(others, v) <==>
               Normal(hosts, u) == Normal(AsUser(others, v, u), u))
    ensures PortBefore(u, v) ==>
              (ClusterAlias(hosts, u) == ClusterAlias(others, v) <==>
               Normal(AsUser(hosts, u, v), v) == Normal(others, v))
    ensures u != v && !PortBefore(u, v) && !PortBefore(v, u) ==>
              (ClusterAlias(hosts, u) == ClusterAlias(others, v) <==> hosts == [] && others == [])
  {
    hide ClusterAlias, PortBefore, Normal, AsUser, HostPortUser;
    SameAliasIffSameNormal(hosts, others, u);
    if PortBefore(v, u) {
      SameAliasIffSameNormal(hosts, AsUser(others, v, u), u);
    }
    if PortBefore(u, v) {
      SameAliasIffSameNormal(AsUser(hosts, u, v), others, v);
    }
    UsersShareAliasIff(u, v);
    NoHostsNoAlias(u);
    NoHostsNoAlias(v);
    if hosts != [] {
      SplitFirst(hosts, u);
      EntryIsNotEmpty(hosts[0], u);
    }
    if others != [] {
      SplitFirst(others, v);
      EntryIsNotEmpty(others[0], v);
    }
  }

  lemma {:induction false} UsersOfOneLength(hosts: seq<Host>, u: string, others: seq<Host>, v: string)
    requires hosts != [] && others != [] && ClusterAlias(hosts, u) == ClusterAlias(others, v) && |u| == |v|
    ensures u == v
  {
    hide Decimal, ClusterAlias, HostPortUser;
    var x := AliasEnds(hosts, u);
    var y := AliasEnds(others, v);
    var h, g := hosts[|hosts| - 1], others[|others| - 1];
    EntryBehind(x, h, u);
    EntryBehind(y, g, v);
    var a, b := x + h.name + [':'] + Decimal(h.port), y + g.name + [':'] + Decimal(g.port);
    SameSuffix(a + ":" + u, b + ":" + v, ";");
    SameEnd(a + ":", u, b + ":", v);
  }

  lemma {:induction false} SameEnd(a: string, u: string, b: string, v: string)
    requires a + u == b + v && |u| == |v|
    ensures u == v
  {
    assert |a| == |b|;
    assert (a + u)[|a|..] == u && (b + v)[|b|..] == v;
  }

  // ---------- Buffers ----------

  /** Bytes of a C string with its terminating NUL. */
  function Bytes(s: string): nat {
    |s| + 1
  }

  /** The buffer for the port holds exactly the numbers of at most five characters, all port numbers among them. */
  lemma {:induction false} PortBuffer(port: int)
    ensures Bytes(Decimal(port)) <= MAX_PORT_SIZE <==> -10000 < port < 100000
    ensures 0 <= port <= 65535 ==> Bytes(Decimal(port)) <= MAX_PORT_SIZE
    ensures Bytes(Decimal(65535)) == MAX_PORT_SIZE
  {
    assert Pow10(5) == 100000 && Pow10(4) == 10000 by {
      assert Pow10(1) == 10 && Pow10(2) == 100 && Pow10(3) == 1000;
    }
    if port < 0 {
      DigitsLength(-port, 4);
    } else {
      DigitsLength(port, 5);
    }
    DigitsLength(65535, 5);
    DigitsLength(65535, 4);
  }

  /** strlen(name) + MAX_PORT_SIZE + strlen(user) + 3. */
  function EntryBuffer(name: string, user: string): nat {
    |name| + MAX_PORT_SIZE + |user| + 3
  }

  /** What create_alias would print for any int as the port. */
  function PrintedEntry(name: string, port: int, user: string): string {
    name + ":" + Decimal(port) + ":" + user + ";"
  }

  /**
   * create_alias would not write past its buffer for exactly the ports that fit the port buffer, which every host's
   * does; five digits fill the buffer.
   */
  lemma {:induction false} EntryBufferIsTight(name: string, port: int, user: string)
    ensures Bytes(PrintedEntry(name, port, user)) <= EntryBuffer(name, user) <==> Bytes(Decimal(port)) <= MAX_PORT_SIZE
    ensures 0 <= port < 0x1_0000 ==>
              Bytes(HostPortUser(Host(name, port), user)) <= EntryBuffer(name, user) &&
              HostPortUser(Host(name, port), user) == PrintedEntry(name, port, user)
    ensures port == 65535 ==> Bytes(PrintedEntry(name, port, user)) == EntryBuffer(name, user)
  {
    hide Decimal;
    PortBuffer(port);
  }

  /** create_new_alias has a byte to spare: six characters of port would still fit its buffer. */
  lemma {:induction false} HostPortBuffer(name: string, port: int)
    ensures Bytes(name + ":" + Decimal(port)) <= |name| + 1 + MAX_PORT_SIZE + 1 <==> |Decimal(port)| <= MAX_PORT_SIZE
    ensures 0 <= port < 0x1_0000 ==> Bytes(HostPort(Host(name, port))) < |name| + 1 + MAX_PORT_SIZE + 1
  {
    PortBuffer(port);
  }

  /** The length that verify_shm_key_store_it sums up over the hosts. */
  function ClusterBuffer(hosts: seq<Host>, user: string): nat {
    if hosts == [] then 0 else |hosts[0].name| + MAX_PORT_SIZE + 3 + |user| + ClusterBuffer(hosts[1..], user)
  }

  lemma {:induction false} ClusterSlack(hosts: seq<Host>, user: string)
    ensures |ClusterAlias(hosts, user)| + |hosts| <= ClusterBuffer(hosts, user)
  {
    hide Decimal;
    if hosts != [] {
      ClusterSlack(hosts[1..], user);
      PortBuffer(hosts[0].port);
    }
  }

  /** The concatenation fits its buffer exactly if there is a host; with none it is one byte short. */
  lemma {:induction false} ClusterBufferSuffices(hosts: seq<Host>, user: string)
    ensures Bytes(ClusterAlias(hosts, user)) <= ClusterBuffer(hosts, user) <==> hosts != []
  {
    ClusterSlack(hosts, user);
  }
}
