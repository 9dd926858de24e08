/** Which trees the parser of nat.py gives back from their printed line: exactly those whose items
    may precede one another, with distinct keys and plain texts. */
module NatReading {
  import opened Wrappers
  import opened NatParser
  import opened NatPrinter

  // ---- the parser without its recursion ----

  // No key is left where reading goes on after none was found, nor at the end.
  ghost predicate CalmAt(sc: Scanner, c: nat) {
    sc.head(c) == NoKey ==> sc.head(sc.skip(c)) == NoKey
  }

  ghost predicate Calm(sc: Scanner) {
    && sc.head(sc.len) == NoKey
    && forall c: nat {:trigger CalmAt(sc, c)} :: c <= sc.len ==> CalmAt(sc, c)
  }

  // The keys one call of the parser reads, with those its nested calls read, in order.
  ghost function KeysRead(sc: Scanner, c: nat): seq<string>
    requires ScannerOk(sc) && c <= sc.len
    decreases sc.len - c
  {
    assert OkAt(sc, c);
    match sc.head(c)
    case NoKey => []
    case Bare => []
    case AtomHead(key, text, next, closed) =>
      assert OkAt(sc, next);
      [key] + (if closed || next == sc.len then [] else KeysRead(sc, sc.skip(next)))
    case GroupHead(key, start) =>
      [key] + KeysRead(sc, start) +
      match ParseFrom(sc, start, [])
      case None => []
      case Some((_, next)) => assert OkAt(sc, next); if next == sc.len then [] else KeysRead(sc, sc.skip(next))
  }

  // The same keys read item by item, with only the number of open groups kept.
  ghost function FlatKeys(sc: Scanner, c: nat, open: nat): seq<string>
    requires ScannerOk(sc) && c <= sc.len
    decreases sc.len - c, 0
  {
    assert OkAt(sc, c);
    match sc.head(c)
    case NoKey => []
    case Bare => []
    case AtomHead(key, text, next, closed) =>
      assert OkAt(sc, next);
      [key] + (if closed then FlatRest(sc, next, open) else FlatKeys(sc, sc.skip(next), open))
    case GroupHead(key, start) =>
      [key] + FlatKeys(sc, start, open + 1)
  }

  // What is read after a call returned.
  ghost function FlatRest(sc: Scanner, next: nat, open: nat): seq<string>
    requires ScannerOk(sc) && next <= sc.len && OkAt(sc, next)
    decreases sc.len - next, 1
  {
    if open == 0 then [] else FlatKeys(sc, sc.skip(next), open - 1)
  }

  lemma {:induction false} NestedIsFlat(sc: Scanner, c: nat, open: nat, acc: seq<Item>)
    requires ScannerOk(sc) && Calm(sc) && c <= sc.len && ParseFrom(sc, c, acc).Some?
    ensures var next := ParseFrom(sc, c, acc).value.1;
      OkAt(sc, next) && FlatKeys(sc, c, open) == KeysRead(sc, c) + FlatRest(sc, next, open)
    decreases sc.len - c
  {
    assert OkAt(sc, c) && CalmAt(sc, c);
    match sc.head(c)
    case NoKey =>
    case Bare =>
    case AtomHead(key, text, next, closed) =>
      FlatAtom(sc, c, open, acc);
    case GroupHead(key, start) =>
      FlatGroup(sc, c, open, acc);
  }

  lemma {:induction false} FlatAtom(sc: Scanner, c: nat, open: nat, acc: seq<Item>)
    requires ScannerOk(sc) && Calm(sc) && c <= sc.len && ParseFrom(sc, c, acc).Some? && OkAt(sc, c)
    requires sc.head(c).AtomHead?
    ensures var next := ParseFrom(sc, c, acc).value.1;
      OkAt(sc, next) && FlatKeys(sc, c, open) == KeysRead(sc, c) + FlatRest(sc, next, open)
    decreases sc.len - c, 0
  {
    var h := sc.head(c);
    AfterAtom(sc, c, acc);
    assert OkAt(sc, h.next);
    if !h.closed {
      if h.next == sc.len {
        assert sc.skip(h.next) == sc.len;
      } else {
        NestedIsFlat(sc, sc.skip(h.next), open, WithKey(acc, h.key, Atom(h.text)));
      }
    }
  }

  lemma {:induction false} FlatGroup(sc: Scanner, c: nat, open: nat, acc: seq<Item>)
    requires ScannerOk(sc) && Calm(sc) && c <= sc.len && ParseFrom(sc, c, acc).Some? && OkAt(sc, c)
    requires sc.head(c).GroupHead?
    ensures var next := ParseFrom(sc, c, acc).value.1;
      OkAt(sc, next) && FlatKeys(sc, c, open) == KeysRead(sc, c) + FlatRest(sc, next, open)
    decreases sc.len - c, 0
  {
    var h := sc.head(c);
    AfterGroup(sc, c, acc);
    NestedIsFlat(sc, h.start, open + 1, []);
    var (inner, next) := ParseFrom(sc, h.start, []).value;
    if next < sc.len { NestedIsFlat(sc, sc.skip(next), open, WithKey(acc, h.key, Group(inner))); }
    GroupIsFlat(sc, c, open, acc, inner, next);
  }

  ghost predicate IsFlat(sc: Scanner, c: nat, open: nat, acc: seq<Item>)
    requires ScannerOk(sc) && c <= sc.len
  {
    match ParseFrom(sc, c, acc)
    case None => false
    case Some((_, next)) => OkAt(sc, next) && FlatKeys(sc, c, open) == KeysRead(sc, c) + FlatRest(sc, next, open)
  }

  lemma GroupIsFlat(sc: Scanner, c: nat, open: nat, acc: seq<Item>, inner: seq<Item>, next: nat)
    requires ScannerOk(sc) && Calm(sc) && c <= sc.len && OkAt(sc, c) && sc.head(c).GroupHead?
    requires ParseFrom(sc, sc.head(c).start, []) == Some((inner, next)) && next <= sc.len && OkAt(sc, next)
    requires IsFlat(sc, sc.head(c).start, open + 1, [])
    requires next < sc.len ==> IsFlat(sc, sc.skip(next), open, WithKey(acc, sc.head(c).key, Group(inner)))
    ensures IsFlat(sc, c, open, acc)
  {
    AfterGroup(sc, c, acc);
    if next == sc.len {
      assert sc.skip(next) == sc.len && FlatKeys(sc, sc.len, open) == [];
      assert FlatRest(sc, next, open + 1) == [] && FlatRest(sc, next, open) == [];
    }
  }

  // ---- the keys of a tree ----

  function TreeKeys(kvs: seq<Item>): seq<string>
    decreases kvs, 0
  {
    if kvs == [] then [] else ItemKeys(kvs[0]) + TreeKeys(kvs[1..])
  }

  function ItemKeys(it: Item): (ks: seq<string>)
    decreases it, 0
  {
    [it.key] + match it.value case Atom(_) => [] case Group(g) => TreeKeys(g)
  }

  lemma {:induction false} KeysAppend(a: seq<Item>, b: seq<Item>)
    ensures TreeKeys(a + b) == TreeKeys(a) + TreeKeys(b)
    decreases |a|
  {
    if a == [] {
      assert a + b == b;
    } else {
      assert (a + b)[1..] == a[1..] + b;
      KeysAppend(a[1..], b);
    }
  }

  lemma KeysOne(it: Item)
    ensures TreeKeys([it]) == ItemKeys(it)
  {
    assert [it][1..] == [];
  }

  // Storing an item adds its keys at the end; storing it over another loses at least one.
  lemma PutKeys(acc: seq<Item>, key: string, v: Value)
    ensures var more := TreeKeys(acc) + ItemKeys(Item(key, v));
      var now := TreeKeys(WithKey(acc, key, v));
      |now| < |more| || now == more
  {
    var it := Item(key, v);
    var i := KeyAt(acc, key);
    KeysOne(it);
    if i < |acc| {
      KeysOne(acc[i]);
      assert acc == acc[..i] + [acc[i]] + acc[i + 1..];
      assert WithKey(acc, key, v) == acc[..i] + [it] + acc[i + 1..];
      KeysAppend(acc[..i] + [acc[i]], acc[i + 1..]);
      KeysAppend(acc[..i], [acc[i]]);
      KeysAppend(acc[..i] + [it], acc[i + 1..]);
      KeysAppend(acc[..i], [it]);
    } else {
      KeysAppend(acc, [it]);
    }
  }

  // The result holds the keys read, in order, unless some were overwritten.
  ghost predicate KeptKeys(now: seq<string>, more: seq<string>) {
    |now| < |more| || now == more
  }

  lemma {:induction false} ResultKeys(sc: Scanner, c: nat, acc: seq<Item>)
    requires ScannerOk(sc) && c <= sc.len && ParseFrom(sc, c, acc).Some?
    ensures KeptKeys(TreeKeys(ParseFrom(sc, c, acc).value.0), TreeKeys(acc) + KeysRead(sc, c))
    decreases sc.len - c, 1
  {
    assert OkAt(sc, c);
    match sc.head(c)
    case NoKey =>
    case Bare =>
    case AtomHead(_, _, _, _) => AtomKeys(sc, c, acc);
    case GroupHead(_, _) => GroupKeys(sc, c, acc);
  }

  lemma {:induction false} AtomKeys(sc: Scanner, c: nat, acc: seq<Item>)
    requires ScannerOk(sc) && c <= sc.len && ParseFrom(sc, c, acc).Some? && OkAt(sc, c) && sc.head(c).AtomHead?
    ensures KeptKeys(TreeKeys(ParseFrom(sc, c, acc).value.0), TreeKeys(acc) + KeysRead(sc, c))
    decreases sc.len - c, 0
  {
    var h := sc.head(c);
    AfterAtom(sc, c, acc);
    PutKeys(acc, h.key, Atom(h.text));
    if !h.closed && h.next < sc.len {
      var now := WithKey(acc, h.key, Atom(h.text));
      ResultKeys(sc, sc.skip(h.next), now);
      KeptOn(TreeKeys(ParseFrom(sc, c, acc).value.0), TreeKeys(now), TreeKeys(acc), [h.key],
             KeysRead(sc, sc.skip(h.next)));
    }
  }

  lemma {:induction false} GroupKeys(sc: Scanner, c: nat, acc: seq<Item>)
    requires ScannerOk(sc) && c <= sc.len && ParseFrom(sc, c, acc).Some? && OkAt(sc, c) && sc.head(c).GroupHead?
    ensures KeptKeys(TreeKeys(ParseFrom(sc, c, acc).value.0), TreeKeys(acc) + KeysRead(sc, c))
    decreases sc.len - c, 0
  {
    var h := sc.head(c);
    AfterGroup(sc, c, acc);
    ResultKeys(sc, h.start, []);
    var (inner, next) := ParseFrom(sc, h.start, []).value;
    var now := WithKey(acc, h.key, Group(inner));
    GroupKept(acc, h.key, inner, KeysRead(sc, h.start));
    if next < sc.len {
      ResultKeys(sc, sc.skip(next), now);
      KeptOn(TreeKeys(ParseFrom(sc, c, acc).value.0), TreeKeys(now), TreeKeys(acc), 
             [h.key] + KeysRead(sc, h.start), KeysRead(sc, sc.skip(next)));
    }
  }

  lemma KeptOn(now: seq<string>, mid: seq<string>, was: seq<string>, read: seq<string>, rest: seq<string>)
    requires KeptKeys(mid, was + read) && KeptKeys(now, mid + rest)
    ensures KeptKeys(now, was + (read + rest))
  {
    assert was + read + rest == was + (read + rest);
  }

  lemma GroupKept(acc: seq<Item>, key: string, inner: seq<Item>, read: seq<string>)
    requires KeptKeys(TreeKeys(inner), read)
    ensures KeptKeys(TreeKeys(WithKey(acc, key, Group(inner))), TreeKeys(acc) + ([key] + read))
  {
    PutKeys(acc, key, Group(inner));
    assert ItemKeys(Item(key, Group(inner))) == [key] + TreeKeys(inner);
  }

  // ---- whatever is parsed is tidy ----

  ghost predicate Tidy(kvs: seq<Item>) {
    UniqueDeep(kvs) && PlainItems(kvs)
  }

  lemma PutTidy(kvs: seq<Item>, key: string, v: Value)
    requires Tidy(kvs) && '=' !in key && PlainValue(v) && UniqueValue(v)
    ensures Tidy(WithKey(kvs, key, v))
  {
    var i := KeyAt(kvs, key);
    if i == |kvs| {
      forall j | 0 <= j < |kvs| ensures kvs[j].key != key { assert OtherKey(kvs, key, j); }
    }
    var now := WithKey(kvs, key, v);
    forall j | 0 <= j < |now| ensures PlainItem(now[j]) && UniqueValue(now[j].value) {
      if j < |kvs| { assert PlainItem(kvs[j]) && UniqueValue(kvs[j].value); }
    }
  }

  ghost predicate TidyHead(h: Head) {
    match h
    case AtomHead(key, text, _, _) => '=' !in key && PlainText(text)
    case GroupHead(key, _) => '=' !in key
    case _ => true
  }

  lemma NoneOf(s: string, chars: set<char>, a: nat, b: nat, x: char)
    requires a <= b <= |s| && x in chars
    requires forall k: nat {:trigger OtherChar(s, chars, k)} :: a <= k < b ==> OtherChar(s, chars, k)
    ensures x !in s[a..b]
  {
    forall k | 0 <= k < b - a ensures s[a..b][k] != x { assert OtherChar(s, chars, a + k); }
  }

  lemma HeadIsTidy(s: string, c: nat)
    requires c <= |s|
    ensures TidyHead(ReadHead(s, c))
  {
    var eq := Find(s, c);
    NoneOf(s, {'='}, c, eq, '=');
    if eq + 1 < |s| && s[eq + 1] != '(' {
      var end := FindDelim(s, eq + 1);
      var stop := if end == |s| then end - 1 else end;
      AtomHeadIs(s, c, eq, end);
      NoneOf(s, {')', ','}, eq + 1, stop, ',');
      NoneOf(s, {')', ','}, eq + 1, stop, ')');
    }
  }

  ghost predicate TidyAt(sc: Scanner, c: nat) {
    TidyHead(sc.head(c))
  }

  ghost predicate TidyScanner(sc: Scanner) {
    forall c: nat {:trigger TidyAt(sc, c)} :: c <= sc.len ==> TidyAt(sc, c)
  }

  lemma {:induction false} ResultTidy(sc: Scanner, c: nat, acc: seq<Item>)
    requires ScannerOk(sc) && TidyScanner(sc) && c <= sc.len && Tidy(acc) && ParseFrom(sc, c, acc).Some?
    ensures Tidy(ParseFrom(sc, c, acc).value.0)
    decreases sc.len - c
  {
    assert OkAt(sc, c) && TidyAt(sc, c);
    match sc.head(c)
    case NoKey =>
    case Bare =>
    case AtomHead(key, text, next, closed) =>
      AfterAtom(sc, c, acc);
      PutTidy(acc, key, Atom(text));
      if !closed && next < sc.len { ResultTidy(sc, sc.skip(next), WithKey(acc, key, Atom(text))); }
    case GroupHead(key, start) =>
      AfterGroup(sc, c, acc);
      ResultTidy(sc, start, []);
      var (inner, next) := ParseFrom(sc, start, []).value;
      PutTidy(acc, key, Group(inner));
      if next < sc.len { ResultTidy(sc, sc.skip(next), WithKey(acc, key, Group(inner))); }
  }

  // ---- reading a printed list ----

  // A list, or an item, ends at e: at a comma, the ')' of an open group, or the final newline.
  ghost predicate EndsAt(s: string, e: nat, open: nat) {
    e < |s| && (s[e] == ',' || (s[e] == ')' && open > 0) || (s[e] == '\n' && e + 1 == |s|))
  }

  // Where flat reading stands past an item or a list that ends at e, having read `keys`.
  ghost predicate ReadsTo(sc: Scanner, c: nat, open: nat, keys: seq<string>, c': nat, open': nat)
    requires ScannerOk(sc) && c <= sc.len
  {
    c' <= sc.len && FlatKeys(sc, c, open) == keys + FlatKeys(sc, c', open')
  }

  lemma ReadsOn(sc: Scanner, c: nat, open: nat, a: seq<string>, c1: nat, open1: nat, b: seq<string>, c2: nat,
                open2: nat)
    requires ScannerOk(sc) && c <= sc.len && ReadsTo(sc, c, open, a, c1, open1) && ReadsTo(sc, c1, open1, b, c2, open2)
    ensures ReadsTo(sc, c, open, a + b, c2, open2)
  {
    assert a + (b + FlatKeys(sc, c2, open2)) == a + b + FlatKeys(sc, c2, open2);
  }

  // The keys read agree with a tree's own piece by piece.
  lemma SameParts(a: seq<string>, b: seq<string>, x: seq<string>, y: seq<string>)
    requires |a| == |x|
    ensures a + b == x + y <==> a == x && b == y
  {
    if a + b == x + y {
      assert (a + b)[..|a|] == a && (x + y)[..|a|] == x;
      assert (a + b)[|a|..] == b && (x + y)[|a|..] == y;
    }
  }

  lemma FlatOneAtom(s: string, sc: Scanner, c: nat, open: nat, i: nat, key: string, t: string) returns (read: string)
    requires Sees(sc, s) && '=' !in key && PlainText(t) && Near(s, c, i, key)
    requires HasText(s, i, key + "=") && HasText(s, i + |key| + 1, t) && EndsAt(s, i + |key| + 1 + |t|, open)
    ensures read == key <==> c == i
    ensures var e := i + |key| + 1 + |t|;
      && c <= sc.len && OkAt(sc, e + 1)
      && ReadsTo(sc, c, open, [read], sc.skip(e + 1), if s[e] == ')' then open - 1 else open)
  {
    var e := i + |key| + 1 + |t|;
    FoundEq(s, c, i, key);
    HeadOfAtom(s, c, i, key, t);
    HeadAt(s, sc, c);
    assert OkAt(sc, c) && OkAt(sc, e + 1);
    read := s[c..i + |key|];
  }

  lemma FlatOpening(s: string, sc: Scanner, c: nat, open: nat, i: nat, key: string) returns (read: string)
    requires Sees(sc, s) && '=' !in key && Near(s, c, i, key)
    requires HasText(s, i, key + "=") && i + |key| + 1 < |s| && s[i + |key| + 1] == '('
    ensures read == key <==> c == i
    ensures c <= sc.len && ReadsTo(sc, c, open, [read], i + |key| + 2, open + 1)
  {
    FoundEq(s, c, i, key);
    HeadOfGroup(s, c, i, key);
    HeadAt(s, sc, c);
    assert OkAt(sc, c);
    read := s[c..i + |key|];
  }

  // Where reading stands past a value that ends at e.
  ghost predicate PastValue(s: string, sc: Scanner, v: Value, e: nat, open: nat, c': nat, open': nat)
    requires e < |s|
  {
    match v
    case Atom(_) => OkAt(sc, e + 1) && c' == sc.skip(e + 1) && Opened(s, e, open, open')
    case Group(g) =>
      && open' >= open
      && if EndsInAtom(g) then OkAt(sc, e) && c' == sc.skip(e) else Behind(s, c', e) && c' < e
  }

  // Reading the delimiter at e leaves at least the groups open that are open in the text.
  predicate Opened(s: string, e: nat, open: nat, open': nat)
    requires e < |s|
  {
    open <= open' + if s[e] == ')' then 1 else 0
  }

  // Where reading stands past a list that ends at e, before a ')' or the newline.
  ghost predicate PastList(s: string, sc: Scanner, kvs: seq<Item>, e: nat, open: nat, c': nat, open': nat)
    requires e < |s|
  {
    if EndsInAtom(kvs) then OkAt(sc, e + 1) && c' == sc.skip(e + 1) && Opened(s, e, open, open')
    else Behind(s, c', e) && open' >= open
  }

  lemma {:induction false} FlatItem(s: string, sc: Scanner, c: nat, open: nat, i: nat, it: Item, e: nat)
    returns (keys: seq<string>, c': nat, open': nat)
    requires Sees(sc, s) && PlainItem(it) && Near(s, c, i, it.key)
    requires HasText(s, i, it.key + "=") && HasText(s, i + |it.key| + 1, PrintValue(it.value))
    requires e == i + |it.key| + 1 + |PrintValue(it.value)| && (if it.value.Atom? then EndsAt(s, e, open) else e < |s|)
    ensures c <= sc.len && ReadsTo(sc, c, open, keys, c', open') && |keys| == |ItemKeys(it)|
    ensures keys == ItemKeys(it) <==> c == i && ClosedValue(it.value)
    ensures PastValue(s, sc, it.value, e, open, c', open')
    decreases it, 1
  {
    match it.value
    case Atom(t) =>
      var read := FlatOneAtom(s, sc, c, open, i, it.key, t);
      keys, c', open' := [read], sc.skip(e + 1), if s[e] == ')' then open - 1 else open;
      assert ItemKeys(it) == [it.key] && (keys == [it.key] <==> keys[0] == it.key);
    case Group(g) =>
      keys, c', open' := FlatGroupItem(s, sc, c, open, i, it.key, g);
  }

  lemma {:induction false} FlatGroupItem(s: string, sc: Scanner, c: nat, open: nat, i: nat, key: string, g: seq<Item>)
    returns (keys: seq<string>, c': nat, open': nat)
    requires Sees(sc, s) && '=' !in key && PlainItems(g) && Near(s, c, i, key)
    requires HasText(s, i, key + "=") && HasText(s, i + |key| + 1, "(" + Print(g) + ")")
    requires i + |key| + 3 + |Print(g)| < |s|
    ensures c <= sc.len && ReadsTo(sc, c, open, keys, c', open') && |keys| == |[key] + TreeKeys(g)|
    ensures keys == [key] + TreeKeys(g) <==> c == i && Closed(g)
    ensures PastValue(s, sc, Group(g), i + |key| + 3 + |Print(g)|, open, c', open')
    decreases g, 5
  {
    GroupLayout(s, i + |key| + 1, Print(g));
    var read := FlatOpening(s, sc, c, open, i, key);
    var inner;
    inner, c', open' := FlatInner(s, sc, open, i + |key| + 1, g);
    ReadsOn(sc, c, open, [read], i + |key| + 2, open + 1, inner, c', open');
    keys := [read] + inner;
    SameParts([read], inner, [key], TreeKeys(g));
  }

  lemma {:induction false} FlatInner(s: string, sc: Scanner, open: nat, at: nat, g: seq<Item>)
    returns (keys: seq<string>, c': nat, open': nat)
    requires Sees(sc, s) && PlainItems(g) && HasText(s, at, "(" + Print(g) + ")") && at + 2 + |Print(g)| < |s|
    ensures ReadsTo(sc, at + 1, open + 1, keys, c', open') && |keys| == |TreeKeys(g)|
    ensures keys == TreeKeys(g) <==> Closed(g)
    ensures PastValue(s, sc, Group(g), at + 2 + |Print(g)|, open, c', open')
    decreases g, 4
  {
    GroupLayout(s, at, Print(g));
    keys, c', open' := FlatList(s, sc, at + 1, open + 1, at + 1, g);
    PastGroup(s, sc, g, at + 2 + |Print(g)|, open, c', open');
  }

  lemma PastGroup(s: string, sc: Scanner, g: seq<Item>, e: nat, open: nat, c': nat, open': nat)
    requires 0 < e < |s| && s[e - 1] == ')' && PastList(s, sc, g, e - 1, open + 1, c', open')
    ensures PastValue(s, sc, Group(g), e, open, c', open')
  {
  }

  lemma {:induction false} FlatList(s: string, sc: Scanner, c: nat, open: nat, i: nat, kvs: seq<Item>)
    returns (keys: seq<string>, c': nat, open': nat)
    requires Sees(sc, s) && PlainItems(kvs) && (if kvs == [] then Behind(s, c, i) else Near(s, c, i, kvs[0].key))
    requires HasText(s, i, Print(kvs)) && EndsAt(s, i + |Print(kvs)|, open) && s[i + |Print(kvs)|] != ','
    ensures c <= sc.len && ReadsTo(sc, c, open, keys, c', open') && |keys| == |TreeKeys(kvs)|
    ensures keys == TreeKeys(kvs) <==> (kvs == [] || c == i) && Closed(kvs)
    ensures PastList(s, sc, kvs, i + |Print(kvs)|, open, c', open')
    decreases kvs, 3
  {
    if kvs == [] {
      keys, c', open' := [], c, open;
    } else if |kvs| == 1 {
      keys, c', open' := FlatOnly(s, sc, c, open, i, kvs);
    } else {
      keys, c', open' := FlatMore(s, sc, c, open, i, kvs);
    }
  }

  lemma {:induction false} FlatOnly(s: string, sc: Scanner, c: nat, open: nat, i: nat, kvs: seq<Item>)
    returns (keys: seq<string>, c': nat, open': nat)
    requires Sees(sc, s) && |kvs| == 1 && PlainItems(kvs) && Near(s, c, i, kvs[0].key)
    requires HasText(s, i, Print(kvs)) && EndsAt(s, i + |Print(kvs)|, open) && s[i + |Print(kvs)|] != ','
    ensures c <= sc.len && ReadsTo(sc, c, open, keys, c', open') && |keys| == |TreeKeys(kvs)|
    ensures keys == TreeKeys(kvs) <==> c == i && Closed(kvs)
    ensures PastList(s, sc, kvs, i + |Print(kvs)|, open, c', open')
    decreases kvs, 2
  {
    var it := kvs[0];
    assert kvs == [it] && PlainItem(it);
    PrintSingle(kvs);
    LayoutOne(s, i, it.key, PrintValue(it.value));
    KeysOne(it);
    keys, c', open' := FlatItem(s, sc, c, open, i, it, i + |Print(kvs)|);
    LastPast(s, sc, kvs, i + |Print(kvs)|, open, c', open');
  }

  lemma LastPast(s: string, sc: Scanner, kvs: seq<Item>, e: nat, open: nat, c': nat, open': nat)
    requires Sees(sc, s) && |kvs| == 1 && e < |s| && s[e] != ',' && PastValue(s, sc, kvs[0].value, e, open, c', open')
    ensures PastList(s, sc, kvs, e, open, c', open')
  {
    HeadAt(s, sc, e);
  }

  lemma {:induction false} FlatMore(s: string, sc: Scanner, c: nat, open: nat, i: nat, kvs: seq<Item>)
    returns (keys: seq<string>, c': nat, open': nat)
    requires Sees(sc, s) && |kvs| > 1 && PlainItems(kvs) && Near(s, c, i, kvs[0].key)
    requires HasText(s, i, Print(kvs)) && EndsAt(s, i + |Print(kvs)|, open) && s[i + |Print(kvs)|] != ','
    ensures c <= sc.len && ReadsTo(sc, c, open, keys, c', open') && |keys| == |TreeKeys(kvs)|
    ensures keys == TreeKeys(kvs) <==> c == i && Closed(kvs)
    ensures PastList(s, sc, kvs, i + |Print(kvs)|, open, c', open')
    decreases kvs, 2
  {
    var it := kvs[0];
    assert PlainItem(it);
    PrintMore(kvs);
    LayoutMore(s, i, it.key, PrintValue(it.value), Print(kvs[1..]));
    var e := i + |it.key| + 1 + |PrintValue(it.value)|;
    var first, c1, open1 := FlatItem(s, sc, c, open, i, it, e);
    var more, next;
    more, c', open', next := FlatTail(s, sc, kvs, e, open, c1, open1);
    ReadsOn(sc, c, open, first, c1, open1, more, c', open');
    keys := first + more;
    MoreClosed(kvs, c == i, first, more, next);
  }

  // The items after the first, which ends at e; next tells that it can precede them.
  lemma {:induction false} FlatTail(s: string, sc: Scanner, kvs: seq<Item>, e: nat, open: nat, c1: nat, open1: nat)
    returns (more: seq<string>, c': nat, open': nat, next: bool)
    requires Sees(sc, s) && |kvs| > 1 && PlainItems(kvs) && e < |s| && s[e] == ','
    requires PastValue(s, sc, kvs[0].value, e, open, c1, open1)
    requires HasText(s, e + 1, Print(kvs[1..])) && EndsAt(s, e + 1 + |Print(kvs[1..])|, open)
    requires s[e + 1 + |Print(kvs[1..])|] != ','
    ensures c1 <= sc.len && ReadsTo(sc, c1, open1, more, c', open') && |more| == |TreeKeys(kvs[1..])|
    ensures more == TreeKeys(kvs[1..]) <==> next && Closed(kvs[1..])
    ensures next <==> CanPrecede(kvs[0].value, kvs[1].key)
    ensures PastList(s, sc, kvs, e + 1 + |Print(kvs[1..])|, open, c', open')
    decreases kvs, 1
  {
    PlainRest(kvs);
    NextNear(s, sc, kvs[0].value, e, kvs[1..], open, c1, open1);
    more, c', open' := FlatList(s, sc, c1, open1, e + 1, kvs[1..]);
    next := c1 == e + 1;
    MorePast(s, sc, kvs, e + 1 + |Print(kvs[1..])|, open, open1, c', open');
  }

  lemma MoreClosed(kvs: seq<Item>, start: bool, first: seq<string>, more: seq<string>, next: bool)
    requires |kvs| > 1 && |first| == |ItemKeys(kvs[0])| && |more| == |TreeKeys(kvs[1..])|
    requires first == ItemKeys(kvs[0]) <==> start && ClosedValue(kvs[0].value)
    requires more == TreeKeys(kvs[1..]) <==> next && Closed(kvs[1..])
    requires next <==> CanPrecede(kvs[0].value, kvs[1].key)
    ensures |first + more| == |TreeKeys(kvs)| && (first + more == TreeKeys(kvs) <==> start && Closed(kvs))
  {
    SameParts(first, more, ItemKeys(kvs[0]), TreeKeys(kvs[1..]));
  }

  lemma MorePast(s: string, sc: Scanner, kvs: seq<Item>, e: nat, open: nat, open1: nat, c': nat, open': nat)
    requires |kvs| > 1 && e < |s| && open1 >= open && PastList(s, sc, kvs[1..], e, open1, c', open')
    ensures PastList(s, sc, kvs, e, open, c', open')
  {
  }

  // Past an item and before its sibling, reading stands exactly at the sibling's key when the
  // item can precede it.
  lemma NextNear(s: string, sc: Scanner, v: Value, e: nat, rest: seq<Item>, open: nat, c1: nat, open1: nat)
    requires Sees(sc, s) && e < |s| && s[e] == ',' && rest != [] && HasText(s, e + 1, Print(rest))
    requires PastValue(s, sc, v, e, open, c1, open1)
    ensures Near(s, c1, e + 1, rest[0].key) && (c1 == e + 1 <==> CanPrecede(v, rest[0].key)) && open1 >= open
  {
    match v
    case Atom(_) =>
      PrintStarts(rest);
      HasChar(s, e + 1, Print(rest), 0);
      NextAfterAtom(s, sc, e, c1, rest[0].key);
    case Group(g) => NextAfterGroup(s, sc, g, e, c1);
  }

  lemma NextAfterAtom(s: string, sc: Scanner, e: nat, c1: nat, key: string)
    requires Sees(sc, s) && e + 1 < |s| && OkAt(sc, e + 1) && c1 == sc.skip(e + 1)
    requires s[e + 1] == ',' <==> StartsWithComma(key)
    ensures Near(s, c1, e + 1, key) && (c1 == e + 1 <==> !StartsWithComma(key))
  {
    HeadAt(s, sc, e + 1);
  }

  lemma NextAfterGroup(s: string, sc: Scanner, g: seq<Item>, e: nat, c1: nat)
    requires Sees(sc, s) && e < |s| && s[e] == ','
    requires if EndsInAtom(g) then OkAt(sc, e) && c1 == sc.skip(e) else Behind(s, c1, e) && c1 < e
    ensures Behind(s, c1, e + 1) && (c1 == e + 1 <==> EndsInAtom(g))
  {
    HeadAt(s, sc, e);
  }

  // ---- the round trip ----

  lemma LineScanner(s: string)
    ensures Sees(ScannerOf(s), s) && Calm(ScannerOf(s)) && TidyScanner(ScannerOf(s))
  {
    var sc := ScannerOf(s);
    CalmOf(s);
    ScannerSees(s);
    forall c: nat | c <= sc.len ensures TidyAt(sc, c) {
      HeadAt(s, sc, c);
      HeadIsTidy(s, c);
    }
  }

  lemma FoundNone(s: string, c: nat)
    requires c <= |s| && ReadHead(s, c) == NoKey
    ensures Behind(s, Skip(s, c), |s|)
  {
  }

  // The keys the parser reads off a printed line are the tree's own exactly when no item follows
  // one that cannot precede it.
  lemma LineKeys(kvs: seq<Item>)
    requires PlainItems(kvs)
    ensures var sc := ScannerOf(Print(kvs) + "\n");
      |KeysRead(sc, 0)| == |TreeKeys(kvs)| && (KeysRead(sc, 0) == TreeKeys(kvs) <==> Closed(kvs))
  {
    var s := Print(kvs) + "\n";
    var sc := ScannerOf(s);
    var e := |Print(kvs)|;
    LineScanner(s);
    ParserTotal(s);
    NestedIsFlat(sc, 0, 0, []);
    assert s[e] == '\n' && HasText(s, 0, Print(kvs));
    var keys, c', open' := FlatList(s, sc, 0, 0, 0, kvs);
    NothingLeft(s, sc, kvs, e, c', open');
    assert keys + [] == keys;
  }

  lemma NothingLeft(s: string, sc: Scanner, kvs: seq<Item>, e: nat, c': nat, open': nat)
    requires Sees(sc, s) && Calm(sc) && e + 1 == |s| && s[e] == '\n' && PastList(s, sc, kvs, e, 0, c', open')
    ensures c' <= sc.len && FlatKeys(sc, c', open') == []
  {
    if !EndsInAtom(kvs) { QuietNoKey(s, sc, c'); }
  }

  // Parsing a printed line gives back the tree exactly when its keys are distinct per level and hold
  // no '=', its values hold no delimiter and do not look like groups, and no item follows one that
  // cannot precede it.
  lemma RoundTrip(kvs: seq<Item>)
    ensures ParseKv(Print(kvs) + "\n").Some?
    ensures ParseKv(Print(kvs) + "\n").value.0 == kvs <==> ReadsBack(kvs)
  {
    var s := Print(kvs) + "\n";
    ParserTotal(s);
    if ReadsBack(kvs) {
      LineReadsBack(kvs);
    } else if ParseKv(s).value.0 == kvs {
      LineScanner(s);
      ResultTidy(ScannerOf(s), 0, []);
      ResultKeys(ScannerOf(s), 0, []);
      LineKeys(kvs);
      assert false;
    }
  }

  // ---- when the index error occurs ----

  // Reading item by item from c on, with some groups open, meets a key with nothing after its '='.
  ghost predicate MeetsBareKey(sc: Scanner, c: nat, open: nat)
    requires ScannerOk(sc) && c <= sc.len
    decreases sc.len - c, 0
  {
    assert OkAt(sc, c);
    match sc.head(c)
    case NoKey => false
    case Bare => true
    case AtomHead(_, _, next, closed) =>
      assert OkAt(sc, next);
      if closed then MeetsLater(sc, next, open) else MeetsBareKey(sc, sc.skip(next), open)
    case GroupHead(_, start) => MeetsBareKey(sc, start, open + 1)
  }

  ghost predicate MeetsLater(sc: Scanner, next: nat, open: nat)
    requires ScannerOk(sc) && next <= sc.len && OkAt(sc, next)
    decreases sc.len - next, 1
  {
    open > 0 && MeetsBareKey(sc, sc.skip(next), open - 1)
  }

  ghost predicate FailsOrGoesOn(sc: Scanner, c: nat, open: nat, acc: seq<Item>)
    requires ScannerOk(sc) && c <= sc.len
  {
    match ParseFrom(sc, c, acc)
    case None => MeetsBareKey(sc, c, open)
    case Some((_, next)) => OkAt(sc, next) && (MeetsBareKey(sc, c, open) <==> MeetsLater(sc, next, open))
  }

  lemma {:induction false} FailureIsFlat(sc: Scanner, c: nat, open: nat, acc: seq<Item>)
    requires ScannerOk(sc) && Calm(sc) && c <= sc.len
    ensures FailsOrGoesOn(sc, c, open, acc)
    decreases sc.len - c
  {
    assert OkAt(sc, c) && CalmAt(sc, c);
    match sc.head(c)
    case NoKey =>
    case Bare =>
    case AtomHead(key, text, next, closed) =>
      AfterAtom(sc, c, acc);
      if !closed {
        if next < sc.len { FailureIsFlat(sc, sc.skip(next), open, WithKey(acc, key, Atom(text))); }
        else { NothingLater(sc, open); }
      }
    case GroupHead(key, start) =>
      GroupFailure(sc, c, open, acc);
  }

  lemma NothingLater(sc: Scanner, open: nat)
    requires ScannerOk(sc) && Calm(sc)
    ensures OkAt(sc, sc.len) && sc.skip(sc.len) == sc.len
    ensures !MeetsBareKey(sc, sc.len, open) && !MeetsLater(sc, sc.len, open) && !MeetsLater(sc, sc.len, open + 1)
  {
    assert OkAt(sc, sc.len);
  }

  lemma {:induction false} GroupFailure(sc: Scanner, c: nat, open: nat, acc: seq<Item>)
    requires ScannerOk(sc) && Calm(sc) && c <= sc.len && OkAt(sc, c) && sc.head(c).GroupHead?
    ensures FailsOrGoesOn(sc, c, open, acc)
    decreases sc.len - c, 0
  {
    var h := sc.head(c);
    AfterGroup(sc, c, acc);
    FailureIsFlat(sc, h.start, open + 1, []);
    var r := ParseFrom(sc, h.start, []);
    if r.Some? {
      var (inner, next) := r.value;
      if next < sc.len { FailureIsFlat(sc, sc.skip(next), open, WithKey(acc, h.key, Group(inner))); }
      else { NothingLater(sc, open); }
    }
  }

  // The index error occurs exactly when reading item by item, before a ')' outside any group, meets
  // a key whose '=' ends the input.
  lemma ParserFailsIff(s: string)
    ensures ParseKv(s) == None <==> MeetsBareKey(ScannerOf(s), 0, 0)
  {
    CalmOf(s);
    FailureIsFlat(ScannerOf(s), 0, 0, []);
  }

  lemma CalmOf(s: string)
    ensures ScannerOk(ScannerOf(s)) && Calm(ScannerOf(s))
  {
    var sc := ScannerOf(s);
    ScannerSees(s);
    QuietNoKey(s, sc, |s|);
    forall c: nat | c <= sc.len ensures CalmAt(sc, c) {
      HeadAt(s, sc, c);
      if sc.head(c) == NoKey {
        FoundNone(s, c);
        QuietNoKey(s, sc, sc.skip(c));
      }
    }
  }
}
