/** The printer the parser of nat.py undoes, and the trees it gives back from their printed line. */
module NatPrinter {
  import opened Wrappers
  import opened NatParser

  // ---- the printer ----

  function PrintItem(it: Item): string
    decreases it, 0
  {
    it.key + "=" + PrintValue(it.value)
  }

  function PrintValue(v: Value): string
    decreases v, 0
  {
    match v
    case Atom(t) => t
    case Group(kvs) => "(" + Print(kvs) + ")"
  }

  function Print(kvs: seq<Item>): string
    decreases kvs, 0
  {
    if kvs == [] then ""
    else if |kvs| == 1 then PrintItem(kvs[0])
    else PrintItem(kvs[0]) + "," + Print(kvs[1..])
  }

  // ---- the trees that are read back ----

  ghost predicate UniqueItems(kvs: seq<Item>) {
    forall i, j :: 0 <= i < j < |kvs| ==> kvs[i].key != kvs[j].key
  }

  ghost predicate UniqueDeep(kvs: seq<Item>)
    decreases kvs, 0
  {
    UniqueItems(kvs) && forall i :: 0 <= i < |kvs| ==> UniqueValue(kvs[i].value)
  }

  ghost predicate UniqueValue(v: Value)
    decreases v, 0
  {
    v.Group? ==> UniqueDeep(v.kvs)
  }

  // A value holds no delimiter and does not look like a group.
  predicate PlainText(t: string) {
    ',' !in t && ')' !in t && (t != [] ==> t[0] != '(')
  }

  // Keys hold no '=' and values are plain, at every level.
  ghost predicate PlainItems(kvs: seq<Item>)
    decreases kvs, 0
  {
    forall i :: 0 <= i < |kvs| ==> PlainItem(kvs[i])
  }

  ghost predicate PlainItem(it: Item)
    decreases it, 0
  {
    '=' !in it.key && PlainValue(it.value)
  }

  ghost predicate PlainValue(v: Value)
    decreases v, 0
  {
    match v
    case Atom(t) => PlainText(t)
    case Group(kvs) => PlainItems(kvs)
  }

  lemma PlainRest(kvs: seq<Item>)
    requires kvs != [] && PlainItems(kvs)
    ensures PlainItems(kvs[1..])
  {
    assert forall x :: 0 <= x < |kvs[1..]| ==> kvs[1..][x] == kvs[x + 1];
  }

  predicate EndsInAtom(kvs: seq<Item>) {
    kvs != [] && kvs[|kvs| - 1].value.Atom?
  }

  predicate StartsWithComma(key: string) {
    key != [] && key[0] == ','
  }

  // What may stand before an item with a given key: an atomic value, unless the key begins with a
  // comma, and a group that ends in an atomic value, whose ')' that value then reads.
  predicate CanPrecede(v: Value, key: string) {
    match v
    case Atom(_) => !StartsWithComma(key)
    case Group(g) => EndsInAtom(g)
  }

  ghost predicate Closed(kvs: seq<Item>)
    decreases kvs, 0
  {
    kvs == [] ||
    (ClosedValue(kvs[0].value) && (|kvs| > 1 ==> CanPrecede(kvs[0].value, kvs[1].key) && Closed(kvs[1..])))
  }

  ghost predicate ClosedValue(v: Value)
    decreases v, 0
  {
    v.Group? ==> Closed(v.kvs)
  }

  // Distinct keys per level, plain texts, and no item after one that cannot precede it.
  ghost predicate ReadsBack(kvs: seq<Item>) {
    UniqueDeep(kvs) && PlainItems(kvs) && Closed(kvs)
  }

  // ---- text at a position ----

  ghost predicate HasText(s: string, i: nat, t: string) {
    i + |t| <= |s| && s[i..i + |t|] == t
  }

  lemma HasSplit(s: string, i: nat, t: string, u: string)
    requires HasText(s, i, t + u)
    ensures HasText(s, i, t) && HasText(s, i + |t|, u)
  {
    assert s[i..i + |t + u|][..|t|] == t;
    assert s[i..i + |t + u|][|t|..] == u;
  }

  lemma HasChar(s: string, i: nat, t: string, k: nat)
    requires HasText(s, i, t) && k < |t|
    ensures s[i + k] == t[k]
  {
    assert s[i..i + |t|][k] == s[i + k];
  }

  lemma FoundDelim(s: string, i: nat, t: string)
    requires HasText(s, i, t) && ',' !in t && ')' !in t
    requires i + |t| < |s| && (s[i + |t|] == ')' || s[i + |t|] == ',')
    ensures FindDelim(s, i) == i + |t| && s[i..i + |t|] == t
  {
    forall k: nat | i <= k < i + |t| ensures OtherChar(s, {')', ','}, k) { HasChar(s, i, t, k - i); }
    FirstUnique(s, {')', ','}, i, i + |t|);
  }

  lemma FoundNoDelim(s: string, i: nat, t: string)
    requires HasText(s, i, t) && ',' !in t && ')' !in t
    requires i + |t| + 1 == |s| && s[i + |t|] == '\n'
    ensures FindDelim(s, i) == |s| && s[i..|s| - 1] == t
  {
    forall k: nat | i <= k < i + |t| ensures OtherChar(s, {')', ','}, k) { HasChar(s, i, t, k - i); }
    FirstUnique(s, {')', ','}, i, |s|);
  }

  lemma PrintMore(kvs: seq<Item>)
    requires |kvs| > 1
    ensures Print(kvs) == kvs[0].key + "=" + PrintValue(kvs[0].value) + "," + Print(kvs[1..])
  {
  }

  lemma PrintSingle(kvs: seq<Item>)
    requires |kvs| == 1
    ensures Print(kvs) == kvs[0].key + "=" + PrintValue(kvs[0].value)
  {
  }

  lemma PrintStarts(kvs: seq<Item>)
    requires kvs != []
    ensures Print(kvs) != [] && Print(kvs)[0] == (kvs[0].key + "=")[0]
  {
  }

  lemma HasParts(s: string, i: nat, x: string, y: string, z: string)
    requires HasText(s, i, x + y + z)
    ensures HasText(s, i, x) && HasText(s, i + |x|, y) && HasText(s, i + |x| + |y|, z)
  {
    HasSplit(s, i, x + y, z);
    HasSplit(s, i, x, y);
  }

  lemma LayoutMore(s: string, i: nat, key: string, pv: string, more: string)
    requires HasText(s, i, key + "=" + pv + "," + more)
    ensures var after := i + |key| + 1 + |pv|;
      && HasText(s, i, key + "=") && HasText(s, i + |key| + 1, pv)
      && after < |s| && s[after] == ',' && HasText(s, after + 1, more)
  {
    assert key + "=" + pv + "," + more == (key + "=") + pv + ("," + more);
    HasParts(s, i, key + "=", pv, "," + more);
    HasSplit(s, i + |key| + 1 + |pv|, ",", more);
    HasChar(s, i + |key| + 1 + |pv|, ",", 0);
  }

  lemma LayoutOne(s: string, i: nat, key: string, pv: string)
    requires HasText(s, i, key + "=" + pv)
    ensures HasText(s, i, key + "=") && HasText(s, i + |key| + 1, pv)
  {
    HasSplit(s, i, key + "=", pv);
  }

  lemma GroupLayout(s: string, i: nat, body: string)
    requires HasText(s, i, "(" + body + ")")
    ensures s[i] == '(' && HasText(s, i + 1, body) && i + 1 + |body| < |s| && s[i + 1 + |body|] == ')'
  {
    HasParts(s, i, "(", body, ")");
    HasChar(s, i, "(", 0);
    HasChar(s, i + 1 + |body|, ")", 0);
  }

  lemma PutNew(kvs: seq<Item>, key: string, v: Value)
    requires forall i :: 0 <= i < |kvs| ==> kvs[i].key != key
    ensures WithKey(kvs, key, v) == kvs + [Item(key, v)]
  {
    KeyAtUnique(kvs, key, |kvs|);
  }

  // ---- what the parser sees at a key ----

  // No '=' stands between c and p.
  ghost predicate Behind(s: string, c: nat, p: nat) {
    c <= p <= |s| && forall k: nat {:trigger OtherChar(s, {'='}, k)} :: c <= k < p ==> OtherChar(s, {'='}, k)
  }

  // Reading starts before a key at i, at it, or past its leading comma.
  ghost predicate Near(s: string, c: nat, i: nat, key: string) {
    Behind(s, c, i) || (c == i + 1 && StartsWithComma(key))
  }

  lemma FoundEq(s: string, c: nat, i: nat, key: string)
    requires HasText(s, i, key + "=") && '=' !in key && Near(s, c, i, key)
    ensures c <= i + |key| < |s| && Find(s, c) == i + |key| && (s[c..i + |key|] == key <==> c == i)
  {
    HasSplit(s, i, key, "=");
    HasChar(s, i + |key|, "=", 0);
    forall k: nat | c <= k < i + |key| ensures OtherChar(s, {'='}, k) {
      if i <= k { HasChar(s, i, key, k - i); }
    }
    FirstUnique(s, {'='}, c, i + |key|);
    if c == i { assert s[c..i + |key|] == key; } else { assert |s[c..i + |key|]| != |key|; }
  }

  lemma HeadOfAtom(s: string, c: nat, i: nat, key: string, t: string)
    requires '=' !in key && PlainText(t) && Near(s, c, i, key)
    requires HasText(s, i, key + "=") && HasText(s, i + |key| + 1, t) && i + |key| + 1 + |t| < |s|
    requires var e := i + |key| + 1 + |t|; s[e] == ',' || s[e] == ')' || (s[e] == '\n' && e + 1 == |s|)
    ensures var e := i + |key| + 1 + |t|;
      c <= i + |key| && ReadHead(s, c) == AtomHead(s[c..i + |key|], t, e + 1, s[e] == ')')
  {
    FoundEq(s, c, i, key);
    var v := i + |key| + 1;
    if t != [] { HasChar(s, v, t, 0); }
    if s[v + |t|] == '\n' { FoundNoDelim(s, v, t); } else { FoundDelim(s, v, t); }
  }

  lemma HeadOfGroup(s: string, c: nat, i: nat, key: string)
    requires '=' !in key && Near(s, c, i, key)
    requires HasText(s, i, key + "=") && i + |key| + 1 < |s| && s[i + |key| + 1] == '('
    ensures c <= i + |key| && ReadHead(s, c) == GroupHead(s[c..i + |key|], i + |key| + 2)
  {
    FoundEq(s, c, i, key);
  }

  lemma QuietNoKey(s: string, sc: Scanner, p: nat)
    requires Sees(sc, s) && Behind(s, p, |s|)
    ensures sc.head(p) == NoKey
  {
    HeadAt(s, sc, p);
    FirstUnique(s, {'='}, p, |s|);
  }

  // ---- the items a scanner sees ----

  // The items from a position on, up to where the parser stops.
  ghost predicate Spells(sc: Scanner, i: nat, kvs: seq<Item>, stop: nat)
    requires ScannerOk(sc)
    decreases kvs, 0
  {
    && i <= sc.len
    && if kvs == [] then sc.head(i) == NoKey && stop == i
       else exists next: nat, closed: bool :: SpelledBy(sc, i, kvs, stop, next, closed)
  }

  ghost predicate SpelledBy(sc: Scanner, i: nat, kvs: seq<Item>, stop: nat, next: nat, closed: bool)
    requires ScannerOk(sc) && i <= sc.len && kvs != []
    decreases kvs, 0, 0
  {
    && SpellsOne(sc, i, kvs[0], next, closed) && OkAt(sc, next)
    && if |kvs| > 1 then !closed && next < sc.len && Spells(sc, sc.skip(next), kvs[1..], stop)
       else Stops(sc, next, closed, stop)
  }

  ghost predicate SpellsOne(sc: Scanner, i: nat, it: Item, next: nat, closed: bool)
    requires ScannerOk(sc) && i <= sc.len
    decreases it, 0
  {
    && i < next <= sc.len
    && match it.value
       case Atom(t) => sc.head(i) == AtomHead(it.key, t, next, closed)
       case Group(g) =>
         && !closed && sc.head(i).GroupHead? && sc.head(i).key == it.key
         && Spells(sc, sc.head(i).start, g, next)
  }

  ghost predicate Stops(sc: Scanner, next: nat, closed: bool, stop: nat)
    requires ScannerOk(sc) && next <= sc.len
  {
    if closed || next == sc.len then stop == next
    else stop == sc.skip(next) && sc.head(stop) == NoKey
  }

  ghost predicate Disjoint(acc: seq<Item>, kvs: seq<Item>) {
    forall x, y :: 0 <= x < |acc| && 0 <= y < |kvs| ==> acc[x].key != kvs[y].key
  }

  lemma StillUnique(kvs: seq<Item>, acc: seq<Item>)
    requires |kvs| > 1 && UniqueDeep(kvs) && Disjoint(acc, kvs)
    ensures UniqueDeep(kvs[1..]) && Disjoint(acc + [kvs[0]], kvs[1..])
  {
    assert forall x :: 0 <= x < |kvs[1..]| ==> kvs[1..][x] == kvs[x + 1];
  }

  // Parsing collects what is spelled.
  lemma {:induction false} SpelledParses(sc: Scanner, i: nat, kvs: seq<Item>, stop: nat, acc: seq<Item>)
    requires ScannerOk(sc) && Spells(sc, i, kvs, stop) && UniqueDeep(kvs) && Disjoint(acc, kvs)
    ensures ParseFrom(sc, i, acc) == Some((acc + kvs, stop))
    decreases kvs, 1
  {
    if kvs == [] {
      assert acc + kvs == acc;
    } else {
      var it := kvs[0];
      var next: nat, closed: bool :| SpelledBy(sc, i, kvs, stop, next, closed);
      PutNew(acc, it.key, it.value);
      SpelledOne(sc, i, it, next, closed, acc);
      if |kvs| > 1 {
        StillUnique(kvs, acc);
        SpelledParses(sc, sc.skip(next), kvs[1..], stop, acc + [it]);
        FirstMoved(acc, kvs);
      } else {
        assert kvs == [it];
      }
    }
  }

  lemma FirstMoved(acc: seq<Item>, kvs: seq<Item>)
    requires kvs != []
    ensures acc + [kvs[0]] + kvs[1..] == acc + kvs
  {
  }

  lemma {:induction false} SpelledOne(sc: Scanner, i: nat, it: Item, next: nat, closed: bool, acc: seq<Item>)
    requires ScannerOk(sc) && i <= sc.len && SpellsOne(sc, i, it, next, closed) && UniqueValue(it.value)
    requires OkAt(sc, next)
    requires WithKey(acc, it.key, it.value) == acc + [it]
    ensures ParseFrom(sc, i, acc) ==
              if closed || next == sc.len then Some((acc + [it], next)) else ParseFrom(sc, sc.skip(next), acc + [it])
    decreases it, 1
  {
    if it.value.Group? {
      SpelledParses(sc, sc.head(i).start, it.value.kvs, next, []);
      assert [] + it.value.kvs == it.value.kvs;
    }
  }

  lemma SpellsAll(sc: Scanner, kvs: seq<Item>, stop: nat)
    requires ScannerOk(sc) && Spells(sc, 0, kvs, stop) && UniqueDeep(kvs)
    ensures ParseFrom(sc, 0, []) == Some((kvs, stop))
  {
    SpelledParses(sc, 0, kvs, stop, []);
    assert [] + kvs == kvs;
  }

  lemma SpellsAtom(s: string, sc: Scanner, i: nat, key: string, t: string)
    requires Sees(sc, s) && '=' !in key && PlainText(t)
    requires HasText(s, i, key + "=") && HasText(s, i + |key| + 1, t) && i + |key| + 1 + |t| < |s|
    requires var e := i + |key| + 1 + |t|; s[e] == ',' || s[e] == ')' || (s[e] == '\n' && e + 1 == |s|)
    ensures var e := i + |key| + 1 + |t|;
      SpellsOne(sc, i, Item(key, Atom(t)), e + 1, s[e] == ')') && OkAt(sc, e + 1)
  {
    FoundEq(s, i, i, key);
    HeadOfAtom(s, i, i, key, t);
    HeadAt(s, sc, i);
    assert OkAt(sc, i + |key| + 1 + |t| + 1);
  }

  lemma SpellsGroup(s: string, sc: Scanner, i: nat, key: string, g: seq<Item>, e: nat)
    requires Sees(sc, s) && '=' !in key && HasText(s, i, key + "=") && i + |key| + 1 < e <= |s|
    requires s[i + |key| + 1] == '('
    requires Spells(sc, i + |key| + 2, g, e)
    ensures SpellsOne(sc, i, Item(key, Group(g)), e, false) && OkAt(sc, e)
  {
    FoundEq(s, i, i, key);
    HeadOfGroup(s, i, i, key);
    HeadAt(s, sc, i);
    assert OkAt(sc, e);
  }

  lemma SpellsLast(sc: Scanner, i: nat, it: Item, next: nat, closed: bool, stop: nat)
    requires ScannerOk(sc) && i <= sc.len && SpellsOne(sc, i, it, next, closed) && OkAt(sc, next)
    requires Stops(sc, next, closed, stop)
    ensures Spells(sc, i, [it], stop)
  {
    assert SpelledBy(sc, i, [it], stop, next, closed);
  }

  lemma SpellsMore(sc: Scanner, i: nat, kvs: seq<Item>, next: nat, stop: nat)
    requires |kvs| > 1
    requires ScannerOk(sc) && i <= sc.len && SpellsOne(sc, i, kvs[0], next, false) && OkAt(sc, next)
    requires next < sc.len && Spells(sc, sc.skip(next), kvs[1..], stop)
    ensures Spells(sc, i, kvs, stop)
  {
    assert SpelledBy(sc, i, kvs, stop, next, false);
  }

  // ---- a printed list spells its items ----

  // What follows a printed list that ends at e.  Where more keys come, the ')' of the list must be
  // read by an atomic value; at the end of the line nothing is left to misread.
  ghost predicate Ends(s: string, e: nat, kvs: seq<Item>, more: bool) {
    && e < |s|
    && if more then s[e] == ')' && EndsInAtom(kvs)
       else Behind(s, e, |s|) && (s[e] == ')' || (s[e] == '\n' && e + 1 == |s|))
  }

  // Where the parser stands after a printed list.
  ghost predicate Left(s: string, e: nat, more: bool, stop: nat) {
    if more then stop == e + 1 else Behind(s, stop, |s|)
  }

  lemma {:induction false} Printed(s: string, sc: Scanner, i: nat, kvs: seq<Item>, more: bool) returns (stop: nat)
    requires Sees(sc, s) && PlainItems(kvs) && Closed(kvs)
    requires HasText(s, i, Print(kvs)) && Ends(s, i + |Print(kvs)|, kvs, more)
    ensures i <= stop <= sc.len && Spells(sc, i, kvs, stop) && Left(s, i + |Print(kvs)|, more, stop)
    decreases kvs, 3
  {
    if kvs == [] {
      stop := i;
      QuietNoKey(s, sc, i);
    } else if |kvs| == 1 {
      stop := PrintedOnly(s, sc, i, kvs, more);
    } else {
      stop := PrintedMore(s, sc, i, kvs, more);
    }
  }

  lemma {:induction false} PrintedOnly(s: string, sc: Scanner, i: nat, kvs: seq<Item>, more: bool) returns (stop: nat)
    requires Sees(sc, s) && |kvs| == 1 && PlainItems(kvs) && Closed(kvs)
    requires HasText(s, i, Print(kvs)) && Ends(s, i + |Print(kvs)|, kvs, more)
    ensures i <= stop <= sc.len && Spells(sc, i, kvs, stop) && Left(s, i + |Print(kvs)|, more, stop)
    decreases kvs, 2
  {
    var it := kvs[0];
    assert kvs == [it] && PlainItem(it);
    PrintSingle(kvs);
    LayoutOne(s, i, it.key, PrintValue(it.value));
    var e := i + |Print(kvs)|;
    var next := PrintedItem(s, sc, i, it, e, more);
    stop := LastStops(s, sc, it.value, e, next, more);
    SpellsLast(sc, i, it, next, it.value.Atom? && s[e] == ')', stop);
  }

  lemma {:induction false} PrintedMore(s: string, sc: Scanner, i: nat, kvs: seq<Item>, more: bool) returns (stop: nat)
    requires Sees(sc, s) && |kvs| > 1 && PlainItems(kvs) && Closed(kvs)
    requires HasText(s, i, Print(kvs)) && Ends(s, i + |Print(kvs)|, kvs, more)
    ensures i <= stop <= sc.len && Spells(sc, i, kvs, stop) && Left(s, i + |Print(kvs)|, more, stop)
    decreases kvs, 2
  {
    var it := kvs[0];
    assert PlainItem(it);
    PrintMore(kvs);
    LayoutMore(s, i, it.key, PrintValue(it.value), Print(kvs[1..]));
    var e := i + |it.key| + 1 + |PrintValue(it.value)|;
    var next := PrintedItem(s, sc, i, it, e, true);
    stop := PrintedTail(s, sc, kvs, e, next, more);
    SpellsMore(sc, i, kvs, next, stop);
  }

  // The items after the first, which ends at e.
  lemma {:induction false} PrintedTail(s: string, sc: Scanner, kvs: seq<Item>, e: nat, next: nat, more: bool)
    returns (stop: nat)
    requires Sees(sc, s) && |kvs| > 1 && PlainItems(kvs) && Closed(kvs) && e < |s| && s[e] == ','
    requires next == (if kvs[0].value.Atom? then e + 1 else e)
    requires HasText(s, e + 1, Print(kvs[1..])) && Ends(s, e + 1 + |Print(kvs[1..])|, kvs[1..], more)
    ensures next < sc.len && sc.skip(next) == e + 1 && Spells(sc, e + 1, kvs[1..], stop)
    ensures stop <= sc.len && e < stop && Left(s, e + 1 + |Print(kvs[1..])|, more, stop)
    decreases kvs, 1
  {
    PlainRest(kvs);
    stop := Printed(s, sc, e + 1, kvs[1..], more);
    SkipsTo(s, sc, e, kvs[0].value, kvs[1..], next);
  }

  // Past an item and its comma, reading goes on at the next key when the item can precede it.
  lemma SkipsTo(s: string, sc: Scanner, e: nat, v: Value, rest: seq<Item>, next: nat)
    requires Sees(sc, s) && e < |s| && s[e] == ',' && rest != [] && HasText(s, e + 1, Print(rest))
    requires next == (if v.Atom? then e + 1 else e) && CanPrecede(v, rest[0].key)
    ensures next < sc.len && sc.skip(next) == e + 1
  {
    PrintStarts(rest);
    HasChar(s, e + 1, Print(rest), 0);
    HeadAt(s, sc, next);
  }

  lemma LastStops(s: string, sc: Scanner, v: Value, e: nat, next: nat, more: bool) returns (stop: nat)
    requires Sees(sc, s) && e < |s| && next <= |s| && (if v.Atom? then next == e + 1 else Behind(s, next, |s|))
    requires if more then v.Atom? && s[e] == ')'
             else Behind(s, e, |s|) && (s[e] == ')' || (s[e] == '\n' && e + 1 == |s|))
    ensures next <= stop <= sc.len && Stops(sc, next, v.Atom? && s[e] == ')', stop) && Left(s, e, more, stop)
  {
    stop := next;
    if v.Group? && next < |s| {
      HeadAt(s, sc, next);
      stop := sc.skip(next);
      QuietNoKey(s, sc, stop);
    }
  }

  // One printed item that ends at e.
  lemma {:induction false} PrintedItem(s: string, sc: Scanner, i: nat, it: Item, e: nat, more: bool) returns (next: nat)
    requires Sees(sc, s) && PlainItem(it) && ClosedValue(it.value)
    requires HasText(s, i, it.key + "=") && HasText(s, i + |it.key| + 1, PrintValue(it.value))
    requires e == i + |it.key| + 1 + |PrintValue(it.value)| && e < |s|
    requires s[e] == ',' || s[e] == ')' || (s[e] == '\n' && e + 1 == |s|)
    requires it.value.Group? ==> if more then EndsInAtom(it.value.kvs) else Behind(s, e, |s|)
    ensures i < next <= sc.len && OkAt(sc, next) && SpellsOne(sc, i, it, next, it.value.Atom? && s[e] == ')')
    ensures if it.value.Atom? then next == e + 1 else if more then next == e else Behind(s, next, |s|)
    decreases it, 1
  {
    match it.value
    case Atom(t) =>
      SpellsAtom(s, sc, i, it.key, t);
      next := e + 1;
    case Group(g) =>
      next := PrintedGroup(s, sc, i, it.key, g, more);
  }

  lemma {:induction false} PrintedGroup(s: string, sc: Scanner, i: nat, key: string, g: seq<Item>, more: bool)
    returns (next: nat)
    requires Sees(sc, s) && '=' !in key && PlainItems(g) && Closed(g)
    requires HasText(s, i, key + "=") && HasText(s, i + |key| + 1, "(" + Print(g) + ")")
    requires i + |key| + 3 + |Print(g)| < |s|
    requires if more then EndsInAtom(g) else Behind(s, i + |key| + 3 + |Print(g)|, |s|)
    ensures i < next <= sc.len && OkAt(sc, next) && SpellsOne(sc, i, Item(key, Group(g)), next, false)
    ensures if more then next == i + |key| + 3 + |Print(g)| else Behind(s, next, |s|)
    decreases g, 4
  {
    GroupLayout(s, i + |key| + 1, Print(g));
    next := Printed(s, sc, i + |key| + 2, g, more);
    SpellsGroup(s, sc, i, key, g, next);
  }

  // ---- a group's body ----

  // Parsing a group's body, with anything after its ')', gives back the group and stops past the ')'.
  lemma GroupRoundTrip(kvs: seq<Item>, rest: string)
    requires ReadsBack(kvs) && EndsInAtom(kvs)
    ensures ParseKv(Print(kvs) + ")" + rest) == Some((kvs, |Print(kvs)| + 1))
  {
    Reassociate(Print(kvs), rest);
    BodyReadsBack(Print(kvs) + ")" + rest, kvs);
  }

  lemma BodyReadsBack(s: string, kvs: seq<Item>)
    requires ReadsBack(kvs) && EndsInAtom(kvs) && HasText(s, 0, Print(kvs)) && |Print(kvs)| < |s|
    requires s[|Print(kvs)|] == ')'
    ensures ParseKv(s) == Some((kvs, |Print(kvs)| + 1))
  {
    ScannerSees(s);
    var stop := Printed(s, ScannerOf(s), 0, kvs, true);
    SpellsAll(ScannerOf(s), kvs, stop);
  }

  lemma Reassociate(p: string, rest: string)
    ensures HasText(p + ")" + rest, 0, p) && (p + ")" + rest)[|p|] == ')'
  {
  }

  // The line of a tree that meets the conditions gives it back.
  lemma LineReadsBack(kvs: seq<Item>)
    requires ReadsBack(kvs)
    ensures ParseKv(Print(kvs) + "\n").Some? && ParseKv(Print(kvs) + "\n").value.0 == kvs
  {
    var s := Print(kvs) + "\n";
    var sc := ScannerOf(s);
    ScannerSees(s);
    assert s[|Print(kvs)|] == '\n' && HasText(s, 0, Print(kvs));
    var stop := Printed(s, sc, 0, kvs, false);
    SpellsAll(sc, kvs, stop);
  }
}
