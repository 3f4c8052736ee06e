/** Namespaces of MCP servers and the routing of a tool call to the server that owns it. */
module BridgeRouting {
  import opened Common

  predicate IsPrefix(p: string, s: string) {
    p <= s
  }

  function TrimLeadingSlashes(s: string): string {
    if s != [] && s[0] == '/' then TrimLeadingSlashes(s[1..]) else s
  }

  /** The tool namespace of a server, from its name or from its mount point. */
  function Namespace(server: string, mount: Option<string>): string {
    match mount
    case None => server + "/"
    case Some(m) =>
      var stripped := if "/tools/" <= m then m[|"/tools/"|..] else TrimLeadingSlashes(m);
      if stripped != [] && stripped[|stripped| - 1] == '/' then stripped else stripped + "/"
  }

  predicate Overlap(a: string, b: string) {
    IsPrefix(a, b) || IsPrefix(b, a)
  }

  /** Two servers can register the same full name exactly when one namespace is a prefix of the other. */
  lemma NamesCollideIffOverlap(a: string, b: string)
    ensures (exists x: string, y: string :: a + x == b + y) <==> Overlap(a, b)
  {
    if x: string, y: string :| a + x == b + y {
      var whole := a + x;
      if |a| <= |b| {
        assert a == whole[..|a|] && b == whole[..|b|];
        assert a == b[..|a|];
      } else {
        assert a == whole[..|a|] && b == whole[..|b|];
        assert b == a[..|b|];
      }
    }
    if IsPrefix(a, b) {
      assert a + b[|a|..] == b + [];
    }
    if IsPrefix(b, a) {
      assert a + [] == b + a[|b|..];
    }
  }

  /** Without mounts, one namespace covers another only if the names are equal or the longer one continues with a
      slash. */
  lemma DefaultNamespacesOverlap(a: string, b: string)
    ensures IsPrefix(Namespace(a, None), Namespace(b, None)) <==> a == b || IsPrefix(a + "/", b)
  {
    var x, y := Namespace(a, None), Namespace(b, None);
    assert a == x[..|a|] && b == y[..|b|];
    if IsPrefix(x, y) && |a| < |b| {
      assert x == y[..|x|] == b[..|x|];
    }
    if IsPrefix(a + "/", b) {
      assert x == y[..|x|];
    }
  }

  lemma PrefixElements(p: string, s: string, c: char)
    ensures IsPrefix(p, s) && c in p ==> c in s
  {
  }

  lemma SlashFreeNamesDoNotOverlap(a: string, b: string)
    requires '/' !in a && '/' !in b && a != b
    ensures !Overlap(Namespace(a, None), Namespace(b, None))
  {
    DefaultNamespacesOverlap(a, b);
    DefaultNamespacesOverlap(b, a);
    PrefixElements(a + "/", b, '/');
    PrefixElements(b + "/", a, '/');
  }

  /** Every namespace ends in a slash, whatever the mount says. */
  lemma NamespaceEndsInSlash(server: string, mount: Option<string>)
    ensures Namespace(server, mount) != [] && Namespace(server, mount)[|Namespace(server, mount)| - 1] == '/'
  {
  }

  /** A mount `/tools/p`, with or without a final slash, gives what a server called `p` gets without a mount. */
  lemma MountActsAsName(server: string, p: string)
    requires p == [] || p[|p| - 1] != '/'
    ensures Namespace(server, Some("/tools/" + p)) == Namespace(p, None)
    ensures Namespace(server, Some("/tools/" + p + "/")) == Namespace(p, None)
  {
    var m := "/tools/" + p;
    assert m[|"/tools/"|..] == p;
    assert (m + "/")[|"/tools/"|..] == p + "/";
    assert "/tools/" <= m + "/" by { assert (m + "/")[..|"/tools/"|] == "/tools/"; }
  }

  lemma {:induction false} TrimsExactly(m: string) returns (n: nat)
    ensures n <= |m| && TrimLeadingSlashes(m) == m[n..]
    ensures (forall i :: 0 <= i < n ==> m[i] == '/') && (n < |m| ==> m[n] != '/')
  {
    n := 0;
    if m != [] && m[0] == '/' {
      n := TrimsExactly(m[1..]);
      assert forall i :: 0 < i < n + 1 ==> m[i] == m[1..][i - 1];
      n := n + 1;
    }
  }

  /** Any other mount gives itself without its leading slashes, with one slash at the end. */
  lemma MountLosesLeadingSlashes(server: string, m: string) returns (n: nat)
    requires !("/tools/" <= m)
    ensures n <= |m| && (forall i :: 0 <= i < n ==> m[i] == '/') && (n < |m| ==> m[n] != '/')
    ensures Namespace(server, Some(m)) == m[n..] + if n < |m| && m[|m| - 1] == '/' then "" else "/"
  {
    n := TrimsExactly(m);
    assert m[n..] + "" == m[n..];
  }

  // Routing over a hash map whose iteration order is arbitrary.

  /** The first server, in this order, whose namespace the name starts with. */
  function Route(namespaces: map<string, string>, order: seq<string>, name: string): Option<string> {
    if order == [] then None
    else if order[0] in namespaces && IsPrefix(namespaces[order[0]], name) then Some(order[0])
    else Route(namespaces, order[1..], name)
  }

  ghost predicate Owns(namespaces: map<string, string>, server: string, name: string) {
    server in namespaces && IsPrefix(namespaces[server], name)
  }

  ghost predicate PrefixFree(namespaces: map<string, string>) {
    forall a, b :: a in namespaces && b in namespaces && a != b ==> !Overlap(namespaces[a], namespaces[b])
  }

  /** Servers with slash-free names and no mounts always have prefix-free namespaces. */
  lemma SlashFreeServersArePrefixFree(namespaces: map<string, string>)
    requires forall k :: k in namespaces ==> '/' !in k && namespaces[k] == Namespace(k, None)
    ensures PrefixFree(namespaces)
  {
    forall a, b | a in namespaces && b in namespaces && a != b ensures !Overlap(namespaces[a], namespaces[b]) {
      SlashFreeNamesDoNotOverlap(a, b);
    }
  }

  /** The search is sound and complete for the servers it is given. */
  lemma {:induction false} RouteFindsOwner(namespaces: map<string, string>, order: seq<string>, name: string)
    ensures var r := Route(namespaces, order, name);
      if r.Some? then r.value in order && Owns(namespaces, r.value, name)
      else forall k :: k in order ==> !Owns(namespaces, k, name)
  {
    if order != [] {
      RouteFindsOwner(namespaces, order[1..], name);
      assert forall k :: k in order <==> k == order[0] || k in order[1..];
    }
  }

  lemma OwnerIsUnique(namespaces: map<string, string>, a: string, b: string, name: string)
    requires PrefixFree(namespaces) && Owns(namespaces, a, name) && Owns(namespaces, b, name)
    ensures a == b
  {
    var x, y := namespaces[a], namespaces[b];
    assert name == x + name[|x|..] && name == y + name[|y|..];
    if a != b {
      NamesCollideIffOverlap(x, y);
    }
  }

  /** With prefix-free namespaces a name `ns + raw` goes to its owner in every order, with exactly `raw` left to
      forward. */
  lemma RouteIgnoresOrder(namespaces: map<string, string>, order: seq<string>, server: string, raw: string)
    requires PrefixFree(namespaces) && Enumerates(order, namespaces.Keys) && server in namespaces
    ensures var name := namespaces[server] + raw;
      Route(namespaces, order, name) == Some(server) && name[|namespaces[server]|..] == raw
  {
    var name := namespaces[server] + raw;
    RouteFindsOwner(namespaces, order, name);
    assert Owns(namespaces, server, name);
    var r := Route(namespaces, order, name);
    assert server in order;
    assert r.Some?;
    OwnerIsUnique(namespaces, server, r.value, name);
  }

  /** If two namespaces overlap, some name goes to either server, depending on the order. */
  lemma OverlapMakesOrderMatter(namespaces: map<string, string>, a: string, b: string, rest: seq<string>)
    requires a in namespaces && b in namespaces && a != b && Overlap(namespaces[a], namespaces[b])
    ensures exists name: string ::
      Route(namespaces, [a, b] + rest, name) == Some(a) && Route(namespaces, [b, a] + rest, name) == Some(b)
  {
    var name := if IsPrefix(namespaces[a], namespaces[b]) then namespaces[b] else namespaces[a];
    assert Route(namespaces, [a, b] + rest, name) == Some(a);
    assert Route(namespaces, [b, a] + rest, name) == Some(b);
  }

  /** The search loop of the tool-call handler. */
  method FindServer(namespaces: map<string, string>, order: seq<string>, name: string) returns (server: Option<string>)
    ensures server == Route(namespaces, order, name)
    ensures server.Some? ==> Owns(namespaces, server.value, name)
  {
    for i := 0 to |order|
      invariant Route(namespaces, order, name) == Route(namespaces, order[i..], name)
    {
      assert order[i..][1..] == order[i + 1..];
      if order[i] in namespaces && namespaces[order[i]] <= name {
        return Some(order[i]);
      }
    }
    server := None;
  }
}
