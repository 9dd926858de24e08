/** An item after a group that ends in a group: what the parser of nat.py makes of it. */
module NatNested {
  import opened Wrappers
  import opened NatParser
  import opened NatPrinter

  // Three keys and two values that are plain, and the text a=(b=(c=d)),e=f of a line with them.
  ghost predicate PlainParts(a: string, b: string, c: string, d: string, e: string, f: string) {
    && '=' !in a && '=' !in b && '=' !in c && '=' !in e
    && PlainText(d) && PlainText(f)
  }

  function NestedLine(a: string, b: string, c: string, d: string, e: string, f: string): string {
    (a + "=") + ("(" + ((b + "=") + ("(" + ((c + "=") + (d + (")" + ((")," + e + "=") + (f + "\n"))))))))
  }

  lemma Peel(s: string, i: nat, x: string, rest: string)
    requires i <= |s| && s[i..] == x + rest
    ensures HasText(s, i, x) && i + |x| <= |s| && s[i + |x|..] == rest
    ensures x != [] ==> i < |s| && s[i] == x[0]
  {
    assert s[i..][..|x|] == x && s[i..][|x|..] == rest;
  }

  // An atomic value that a ')' closes, and one at the end of the line.
  lemma ClosedAtom(s: string, sc: Scanner, i: nat, c: string, d: string, rest: string)
    requires Sees(sc, s) && '=' !in c && PlainText(d) && i <= |s|
    requires s[i..] == (c + "=") + (d + (")" + rest))
    ensures var next := i + |c| + |d| + 2;
      next <= |s| && s[next - 1] == ')' && s[next..] == rest && Spells(sc, i, [Item(c, Atom(d))], next)
  {
    var j := i + |c| + 1;
    Peel(s, i, c + "=", d + (")" + rest));
    Peel(s, j, d, ")" + rest);
    Peel(s, j + |d|, ")", rest);
    SpellsAtom(s, sc, i, c, d);
    SpellsLast(sc, i, Item(c, Atom(d)), j + |d| + 1, true, j + |d| + 1);
  }

  lemma FinalAtom(s: string, sc: Scanner, i: nat, g: string, f: string)
    requires Sees(sc, s) && '=' !in g && PlainText(f) && i <= |s|
    requires s[i..] == (g + "=") + (f + "\n")
    ensures Spells(sc, i, [Item(g, Atom(f))], |s|)
  {
    var k := i + |g| + 1;
    Peel(s, i, g + "=", f + "\n");
    Peel(s, k, f, "\n");
    Peel(s, k + |f|, "\n", "");
    SpellsAtom(s, sc, i, g, f);
    SpellsLast(sc, i, Item(g, Atom(f)), |s|, false, |s|);
  }

  // The group (b=(c=d)) and what follows it up to the end of the line, from the b on: its own ')'
  // has become part of the next key g.
  lemma GroupGoesOn(s: string, sc: Scanner, i: nat, b: string, c: string, d: string, g: string, f: string)
    requires Sees(sc, s) && PlainParts("", b, c, d, g, f) && g != [] && g[0] != ',' && i + |b| + 2 <= |s|
    requires HasText(s, i, b + "=") && s[i + |b| + 1] == '('
    requires s[i + |b| + 2..] == (c + "=") + (d + (")" + ((g + "=") + (f + "\n"))))
    ensures Spells(sc, i, [Item(b, Group([Item(c, Atom(d))])), Item(g, Atom(f))], |s|)
  {
    var next := i + |b| + |c| + |d| + 4;
    ClosedAtom(s, sc, i + |b| + 2, c, d, (g + "=") + (f + "\n"));
    FinalAtom(s, sc, next, g, f);
    NothingToSkip(s, sc, next, g, f + "\n");
    SpellsGroup(s, sc, i, b, [Item(c, Atom(d))], next);
    SpellsMore(sc, i, [Item(b, Group([Item(c, Atom(d))])), Item(g, Atom(f))], next, |s|);
  }

  lemma NothingToSkip(s: string, sc: Scanner, i: nat, g: string, rest: string)
    requires Sees(sc, s) && i <= |s| && g != [] && g[0] != ',' && s[i..] == (g + "=") + rest
    ensures i < sc.len && sc.skip(i) == i
  {
    Peel(s, i, g + "=", rest);
    HeadAt(s, sc, i);
  }

  lemma GroupToEnd(s: string, sc: Scanner, a: string, g: seq<Item>)
    requires Sees(sc, s) && '=' !in a && HasText(s, 0, a + "=") && |a| + 2 <= |s| && s[|a| + 1] == '('
    requires Spells(sc, |a| + 2, g, |s|)
    ensures Spells(sc, 0, [Item(a, Group(g))], |s|)
  {
    SpellsGroup(s, sc, 0, a, g, |s|);
    SpellsLast(sc, 0, Item(a, Group(g)), |s|, false, |s|);
  }

  lemma UniqueOne(key: string, v: Value)
    requires UniqueValue(v)
    ensures UniqueDeep([Item(key, v)])
  {
  }

  lemma UniqueTwo(x: Item, y: Item)
    requires x.key != y.key && UniqueValue(x.value) && UniqueValue(y.value)
    ensures UniqueDeep([x, y])
  {
  }

  // A group that ends in a group leaves its own ')' unread: the item after it ends up inside it,
  // under a key that begins with that ')'.
  lemma GroupEndSwallows(a: string, b: string, c: string, d: string, e: string, f: string)
    requires PlainParts(a, b, c, d, e, f) && b != ")," + e
    ensures var s := NestedLine(a, b, c, d, e, f);
      ParseKv(s) == Some(([Item(a, Group([Item(b, Group([Item(c, Atom(d))])), Item(")," + e, Atom(f))]))], |s|))
  {
    var s := NestedLine(a, b, c, d, e, f);
    var sc := ScannerOf(s);
    var g := [Item(b, Group([Item(c, Atom(d))])), Item(")," + e, Atom(f))];
    ScannerSees(s);
    NestedHeads(s, a, b, c, d, e, f);
    GroupGoesOn(s, sc, |a| + 2, b, c, d, ")," + e, f);
    GroupToEnd(s, sc, a, g);
    UniqueOne(c, Atom(d));
    UniqueTwo(g[0], g[1]);
    UniqueOne(a, Group(g));
    SpellsAll(sc, [Item(a, Group(g))], |s|);
  }

  lemma NestedHeads(s: string, a: string, b: string, c: string, d: string, e: string, f: string)
    requires s == NestedLine(a, b, c, d, e, f)
    ensures HasText(s, 0, a + "=") && |a| + |b| + 4 <= |s| && s[|a| + 1] == '('
    ensures HasText(s, |a| + 2, b + "=") && s[|a| + |b| + 3] == '('
    ensures s[|a| + |b| + 4..] == (c + "=") + (d + (")" + ((")," + e + "=") + (f + "\n"))))
  {
    var t3 := (c + "=") + (d + (")" + ((")," + e + "=") + (f + "\n"))));
    var t2 := "(" + t3;
    var t1 := (b + "=") + t2;
    assert s[0..] == s;
    Peel(s, 0, a + "=", "(" + t1);
    Peel(s, |a| + 1, "(", t1);
    Peel(s, |a| + 2, b + "=", t2);
    Peel(s, |a| + |b| + 3, "(", t3);
  }

  // That line is the printed form of another tree: one in which an item follows a group that ends
  // in a group, so that RoundTrip rules it out.
  lemma NestedLinePrinted(a: string, b: string, c: string, d: string, e: string, f: string)
    ensures var tree := [Item(a, Group([Item(b, Group([Item(c, Atom(d))]))])), Item(e, Atom(f))];
      Print(tree) + "\n" == NestedLine(a, b, c, d, e, f) && !ReadsBack(tree)
  {
    var inner, last := [Item(c, Atom(d))], [Item(e, Atom(f))];
    var outer := [Item(b, Group(inner))];
    var tree := [Item(a, Group(outer)), Item(e, Atom(f))];
    assert tree[1..] == last;
    PrintMore(tree);
    PrintSingle(last);
    PrintSingle(inner);
    PrintSingle(outer);
    NestedText(a, b, c, d, e, f, Print(inner), Print(outer));
  }

  lemma NestedText(a: string, b: string, c: string, d: string, e: string, f: string, inner: string, outer: string)
    requires inner == c + "=" + d && outer == b + "=" + ("(" + inner + ")")
    ensures a + "=" + ("(" + outer + ")") + "," + (e + "=" + f) + "\n" == NestedLine(a, b, c, d, e, f)
  {
    var tail := f + "\n";
    assert "," + (e + "=" + f) + "\n" == ("," + e + "=") + tail;
    assert ")" + (("," + e + "=") + tail) == (")," + e + "=") + tail;
    var rest := (")," + e + "=") + tail;
    assert inner + (")" + rest) == (c + "=") + (d + (")" + rest));
  }
}
