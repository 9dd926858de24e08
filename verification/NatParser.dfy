/** The hand-written key/value parser of nat.py, which reads the lines of a
    connection dump, and the printer it undoes. */
module NatParser {
  import opened Wrappers

  // A dictionary is kept in insertion order, as the source's are.
  datatype Value = Atom(text: string) | Group(kvs: seq<Item>)
  datatype Item = Item(key: string, value: Value)

  ghost predicate OtherKey(kvs: seq<Item>, key: string, i: nat)
    requires i < |kvs|
  {
    kvs[i].key != key
  }

  // r is the position of a key, or the length when it is missing.
  ghost predicate IsKeyAt(kvs: seq<Item>, key: string, r: nat) {
    && r <= |kvs| && (r < |kvs| ==> kvs[r].key == key)
    && forall i: nat {:trigger OtherKey(kvs, key, i)} :: i < r ==> OtherKey(kvs, key, i)
  }

  lemma {:induction false} KeyAtExists(kvs: seq<Item>, key: string, from: nat) returns (r: nat)
    requires from <= |kvs| && forall i: nat {:trigger OtherKey(kvs, key, i)} :: i < from ==> OtherKey(kvs, key, i)
    ensures IsKeyAt(kvs, key, r)
    decreases |kvs| - from
  {
    if from == |kvs| || kvs[from].key == key { r := from; } else { r := KeyAtExists(kvs, key, from + 1); }
  }

  ghost function KeyAt(kvs: seq<Item>, key: string): (r: nat)
    ensures IsKeyAt(kvs, key, r)
  {
    assert exists r: nat :: IsKeyAt(kvs, key, r) by { var r := KeyAtExists(kvs, key, 0); }
    var r: nat :| IsKeyAt(kvs, key, r);
    r
  }

  lemma KeyAtUnique(kvs: seq<Item>, key: string, r: nat)
    requires IsKeyAt(kvs, key, r)
    ensures KeyAt(kvs, key) == r
  {
    var k := KeyAt(kvs, key);
    ghost var a, b := k < |kvs| && OtherKey(kvs, key, k), r < |kvs| && OtherKey(kvs, key, r);
  }

  ghost function WithKey(kvs: seq<Item>, key: string, v: Value): seq<Item> {
    var i := KeyAt(kvs, key);
    if i < |kvs| then kvs[i := Item(key, v)] else kvs + [Item(key, v)]
  }

  // Assigning a key gives it the value; a new key comes last, an old one keeps its place, and no other
  // item changes.
  lemma WithKeyIs(kvs: seq<Item>, key: string, v: Value)
    ensures var r := WithKey(kvs, key, v);
      || ((forall j :: 0 <= j < |kvs| ==> kvs[j].key != key) && r == kvs + [Item(key, v)])
      || (exists i :: 0 <= i < |kvs| && kvs[i].key == key && r == kvs[..i] + [Item(key, v)] + kvs[i + 1..]
                      && forall j :: 0 <= j < i ==> kvs[j].key != key)
  {
    var i := KeyAt(kvs, key);
    forall j: nat | j < i ensures kvs[j].key != key { assert OtherKey(kvs, key, j); }
    if i < |kvs| { assert WithKey(kvs, key, v) == kvs[..i] + [Item(key, v)] + kvs[i + 1..]; }
  }

  method Assign(kvs: seq<Item>, key: string, v: Value) returns (r: seq<Item>)
    ensures r == WithKey(kvs, key, v)
  {
    var i := 0;
    while i < |kvs| && kvs[i].key != key
      invariant 0 <= i <= |kvs| && forall j: nat {:trigger OtherKey(kvs, key, j)} :: j < i ==> OtherKey(kvs, key, j)
    {
      i := i + 1;
    }
    KeyAtUnique(kvs, key, i);
    r := if i < |kvs| then kvs[i := Item(key, v)] else kvs + [Item(key, v)];
  }

  ghost predicate OtherChar(s: string, chars: set<char>, i: nat)
    requires i < |s|
  {
    s[i] !in chars
  }

  // r is the first position from `from` on that holds a character of `chars`, or the end.
  ghost predicate IsFirst(s: string, chars: set<char>, from: nat, r: nat) {
    && from <= r <= |s| && (r < |s| ==> s[r] in chars)
    && forall i: nat {:trigger OtherChar(s, chars, i)} :: from <= i < r ==> OtherChar(s, chars, i)
  }

  lemma {:induction false} FirstExists(s: string, chars: set<char>, from: nat) returns (r: nat)
    requires from <= |s|
    ensures IsFirst(s, chars, from, r)
    decreases |s| - from
  {
    if from == |s| || s[from] in chars { r := from; } else {
      r := FirstExists(s, chars, from + 1);
      assert forall i: nat {:trigger OtherChar(s, chars, i)} :: from < i < r ==> OtherChar(s, chars, i);
    }
  }

  ghost function First(s: string, chars: set<char>, from: nat): (r: nat)
    requires from <= |s|
    ensures IsFirst(s, chars, from, r)
  {
    assert exists r: nat :: IsFirst(s, chars, from, r) by { var r := FirstExists(s, chars, from); }
    var r: nat :| IsFirst(s, chars, from, r);
    r
  }

  ghost function Find(s: string, from: nat): (r: nat)
    requires from <= |s|
    ensures IsFirst(s, {'='}, from, r)
  {
    First(s, {'='}, from)
  }

  ghost function FindDelim(s: string, from: nat): (r: nat)
    requires from <= |s|
    ensures IsFirst(s, {')', ','}, from, r)
  {
    First(s, {')', ','}, from)
  }

  // The string search of the language: the first '=' from a position on.
  method FindEq(s: string, from: nat) returns (r: nat)
    requires from <= |s|
    ensures r == Find(s, from)
  {
    r := from;
    while r < |s| && s[r] != '='
      invariant from <= r <= |s|
      invariant forall i :: from <= i < r ==> s[i] != '='
    {
      r := r + 1;
    }
    FirstUnique(s, {'='}, from, r);
  }

  // ---- what the parser computes ----

  // What stands at a position: no further key, a key with nothing after its '=', a key with an
  // atomic value (where reading goes on, and whether a ')' closed it), or a key that opens a group.
  datatype Head =
    | NoKey
    | Bare
    | AtomHead(key: string, text: string, next: nat, closed: bool)
    | GroupHead(key: string, start: nat)

  ghost function ReadHead(s: string, cursor: nat): (h: Head)
    requires cursor <= |s|
    ensures h.AtomHead? ==> cursor < h.next <= |s|
    ensures h.GroupHead? ==> cursor < h.start <= |s|
    ensures h.Bare? ==> |s| > 0 && s[|s| - 1] == '='
  {
    var eq := Find(s, cursor);
    if eq == |s| then NoKey
    else if eq + 1 == |s| then Bare
    else if s[eq + 1] == '(' then GroupHead(s[cursor..eq], eq + 2)
    else
      var end := FindDelim(s, eq + 1);
      // without a delimiter the last character is dropped
      if end == |s| then AtomHead(s[cursor..eq], s[eq + 1..end - 1], end, false)
      else AtomHead(s[cursor..eq], s[eq + 1..end], end + 1, s[end] == ')')
  }

  // A comma right after an item is skipped.
  function Skip(s: string, cursor: nat): (r: nat)
    requires cursor <= |s|
    ensures cursor <= r <= |s|
  {
    if cursor < |s| && s[cursor] == ',' then cursor + 1 else cursor
  }

  // A string as the parser sees it: what stands at each position, and where reading goes on.
  datatype Scanner = Scanner(len: nat, head: nat -> Head, skip: nat -> nat)

  ghost predicate OkAt(sc: Scanner, c: nat) {
    && (match sc.head(c)
        case AtomHead(_, _, next, _) => c < next <= sc.len
        case GroupHead(_, start) => c < start <= sc.len
        case _ => true)
    && c <= sc.skip(c) <= sc.len
  }

  // Reading moves forward and stays within the string.
  ghost predicate ScannerOk(sc: Scanner) {
    forall c: nat {:trigger OkAt(sc, c)} :: c <= sc.len ==> OkAt(sc, c)
  }

  ghost function ScannerOf(s: string): (sc: Scanner)
    ensures ScannerOk(sc)
  {
    Scanner(|s|, (c: nat) => if c <= |s| then ReadHead(s, c) else NoKey, (c: nat) => if c <= |s| then Skip(s, c) else c)
  }

  ghost predicate HeadIs(s: string, sc: Scanner, c: nat)
    requires c <= |s|
  {
    sc.head(c) == ReadHead(s, c) && sc.skip(c) == Skip(s, c)
  }

  // sc is how the parser sees s.
  ghost predicate Sees(sc: Scanner, s: string) {
    ScannerOk(sc) && sc.len == |s| && forall c: nat {:trigger HeadIs(s, sc, c)} :: c <= |s| ==> HeadIs(s, sc, c)
  }

  lemma ScannerSees(s: string)
    ensures Sees(ScannerOf(s), s)
  {
  }

  lemma HeadAt(s: string, sc: Scanner, cursor: nat)
    requires Sees(sc, s) && cursor <= |s|
    ensures sc.head(cursor) == ReadHead(s, cursor) && sc.skip(cursor) == Skip(s, cursor)
  {
    assert HeadIs(s, sc, cursor);
  }

  // Reading on from a position; a group is read from its first key to past its ')', by the same
  // rules.  None stands for the index error raised when nothing follows a '='.
  ghost function ParseFrom(sc: Scanner, cursor: nat, kvs: seq<Item>): (r: Option<(seq<Item>, nat)>)
    requires ScannerOk(sc) && cursor <= sc.len
    ensures r.Some? ==> cursor <= r.value.1 <= sc.len
    decreases sc.len - cursor
  {
    assert OkAt(sc, cursor);
    match sc.head(cursor)
    case NoKey => Some((kvs, cursor))
    case Bare => None
    case AtomHead(key, text, next, closed) =>
      assert OkAt(sc, next);
      if closed || next == sc.len then Some((WithKey(kvs, key, Atom(text)), next))
      else ParseFrom(sc, sc.skip(next), WithKey(kvs, key, Atom(text)))
    case GroupHead(key, start) =>
      match ParseFrom(sc, start, [])
      case None => None
      case Some((inner, next)) =>
        assert OkAt(sc, next);
        if next == sc.len then Some((WithKey(kvs, key, Group(inner)), next))
        else ParseFrom(sc, sc.skip(next), WithKey(kvs, key, Group(inner)))
  }

  ghost function ParseKv(s: string): Option<(seq<Item>, nat)> {
    ParseFrom(ScannerOf(s), 0, [])
  }

  // Where reading stands after an item: the items so far, the position past the item, and
  // whether a ')' closed the list; ParseFrom goes on from there.
  ghost predicate Continues(sc: Scanner, cursor: nat, kvs: seq<Item>, more: seq<Item>, next: nat, closed: bool)
    requires ScannerOk(sc) && cursor <= sc.len
  {
    && cursor < next <= sc.len && OkAt(sc, next)
    && ParseFrom(sc, cursor, kvs) ==
         if closed || next == sc.len then Some((more, next)) else ParseFrom(sc, sc.skip(next), more)
  }

  lemma AfterAtom(sc: Scanner, cursor: nat, kvs: seq<Item>)
    requires ScannerOk(sc) && cursor <= sc.len && sc.head(cursor).AtomHead?
    ensures var h := sc.head(cursor);
      Continues(sc, cursor, kvs, WithKey(kvs, h.key, Atom(h.text)), h.next, h.closed)
  {
    assert OkAt(sc, cursor) && OkAt(sc, sc.head(cursor).next);
  }

  lemma AfterGroup(sc: Scanner, cursor: nat, kvs: seq<Item>)
    requires ScannerOk(sc) && cursor <= sc.len && sc.head(cursor).GroupHead?
    ensures sc.head(cursor).start <= sc.len
    ensures var r := ParseFrom(sc, sc.head(cursor).start, []);
      && (r == None ==> ParseFrom(sc, cursor, kvs) == None)
      && (r.Some? ==> Continues(sc, cursor, kvs, WithKey(kvs, sc.head(cursor).key, Group(r.value.0)), r.value.1, false))
  {
    assert OkAt(sc, cursor);
    var r := ParseFrom(sc, sc.head(cursor).start, []);
    if r.Some? { assert OkAt(sc, r.value.1); }
  }

  // ---- reading a suffix ----

  ghost function Shifted(r: Option<(seq<Item>, nat)>, off: nat): Option<(seq<Item>, nat)> {
    match r
    case None => None
    case Some((kvs, cursor)) => Some((kvs, cursor + off))
  }

  ghost function ShiftedHead(h: Head, off: nat): Head {
    match h
    case AtomHead(key, text, next, closed) => AtomHead(key, text, next + off, closed)
    case GroupHead(key, start) => GroupHead(key, start + off)
    case _ => h
  }

  ghost predicate SeesSame(s: Scanner, t: Scanner, off: nat, i: nat) {
    s.head(i + off) == ShiftedHead(t.head(i), off) && s.skip(i + off) == t.skip(i) + off
  }

  // t sees what s sees from position off on.
  ghost predicate Suffix(s: Scanner, t: Scanner, off: nat) {
    s.len == t.len + off && forall i: nat {:trigger SeesSame(s, t, off, i)} :: i <= t.len ==> SeesSame(s, t, off, i)
  }

  lemma {:induction false} ParseShifts(s: Scanner, t: Scanner, off: nat, i: nat, kvs: seq<Item>)
    requires ScannerOk(s) && ScannerOk(t) && Suffix(s, t, off) && i <= t.len
    ensures ParseFrom(s, i + off, kvs) == Shifted(ParseFrom(t, i, kvs), off)
    decreases t.len - i, 1
  {
    assert SeesSame(s, t, off, i) && OkAt(t, i);
    match t.head(i)
    case NoKey =>
    case Bare =>
    case AtomHead(_, _, _, _) => AtomShifts(s, t, off, i, kvs);
    case GroupHead(_, _) => GroupShifts(s, t, off, i, kvs);
  }

  lemma {:induction false} AtomShifts(s: Scanner, t: Scanner, off: nat, i: nat, kvs: seq<Item>)
    requires ScannerOk(s) && ScannerOk(t) && Suffix(s, t, off) && i <= t.len && SeesSame(s, t, off, i)
    requires OkAt(t, i) && t.head(i).AtomHead?
    ensures ParseFrom(s, i + off, kvs) == Shifted(ParseFrom(t, i, kvs), off)
    decreases t.len - i, 0
  {
    var h := t.head(i);
    AfterAtom(t, i, kvs);
    AfterAtom(s, i + off, kvs);
    RestShifts(s, t, off, h.next, WithKey(kvs, h.key, Atom(h.text)), h.closed);
  }

  lemma {:induction false} GroupShifts(s: Scanner, t: Scanner, off: nat, i: nat, kvs: seq<Item>)
    requires ScannerOk(s) && ScannerOk(t) && Suffix(s, t, off) && i <= t.len && SeesSame(s, t, off, i)
    requires OkAt(t, i) && t.head(i).GroupHead?
    ensures ParseFrom(s, i + off, kvs) == Shifted(ParseFrom(t, i, kvs), off)
    decreases t.len - i, 0
  {
    var h := t.head(i);
    ParseShifts(s, t, off, h.start, []);
    match ParseFrom(t, h.start, [])
    case None => GroupFails(s, t, off, i, kvs);
    case Some((inner, cursor)) =>
      AfterGroup(t, i, kvs);
      AfterGroup(s, i + off, kvs);
      RestShifts(s, t, off, cursor, WithKey(kvs, h.key, Group(inner)), false);
  }

  lemma GroupFails(s: Scanner, t: Scanner, off: nat, i: nat, kvs: seq<Item>)
    requires ScannerOk(s) && ScannerOk(t) && i <= t.len && i + off <= s.len && SeesSame(s, t, off, i)
    requires OkAt(t, i) && OkAt(s, i + off) && t.head(i).GroupHead?
    requires ParseFrom(t, t.head(i).start, []).None? && ParseFrom(s, s.head(i + off).start, []).None?
    ensures ParseFrom(s, i + off, kvs).None? && ParseFrom(t, i, kvs).None?
  {
    AfterGroup(t, i, kvs);
    AfterGroup(s, i + off, kvs);
  }

  lemma {:induction false} RestShifts(s: Scanner, t: Scanner, off: nat, next: nat, kvs: seq<Item>, closed: bool)
    requires ScannerOk(s) && ScannerOk(t) && Suffix(s, t, off) && next <= t.len
    ensures OkAt(t, next) && OkAt(s, next + off)
    ensures (next == t.len <==> next + off == s.len)
    ensures !closed && next < t.len ==>
              ParseFrom(s, s.skip(next + off), kvs) == Shifted(ParseFrom(t, t.skip(next), kvs), off)
    decreases t.len - next, 2
  {
    assert SeesSame(s, t, off, next) && OkAt(t, next) && OkAt(s, next + off);
    if !closed && next < t.len { ParseShifts(s, t, off, t.skip(next), kvs); }
  }

  lemma FirstUnique(s: string, chars: set<char>, from: nat, r: nat)
    requires IsFirst(s, chars, from, r)
    ensures First(s, chars, from) == r
  {
    var k := First(s, chars, from);
    ghost var a, b := k < |s| && OtherChar(s, chars, k), r < |s| && OtherChar(s, chars, r);
  }

  lemma FirstShifts(s: string, chars: set<char>, c: nat, i: nat)
    requires c <= |s| && i <= |s| - c
    ensures First(s, chars, i + c) == First(s[c..], chars, i) + c
  {
    var t := s[c..];
    var r := First(t, chars, i);
    forall k: nat | i + c <= k < r + c ensures OtherChar(s, chars, k) {
      assert OtherChar(t, chars, k - c) && s[k] == t[k - c];
    }
    FirstUnique(s, chars, i + c, r + c);
  }

  lemma HeadShifts(s: string, c: nat, i: nat)
    requires c <= |s| && i <= |s| - c
    ensures ReadHead(s, i + c) == ShiftedHead(ReadHead(s[c..], i), c)
  {
    var t := s[c..];
    FirstShifts(s, {'='}, c, i);
    var eq := Find(t, i);
    if eq + 1 < |t| {
      assert s[eq + 1 + c] == t[eq + 1];
      SliceShifts(s, c, i, eq);
      if t[eq + 1] != '(' { AtomHeadShifts(s, c, i, eq); }
    }
  }

  lemma AtomHeadShifts(s: string, c: nat, i: nat, eq: nat)
    requires c <= |s| && i <= |s| - c && eq == Find(s[c..], i) && eq + 1 < |s[c..]| && s[c..][eq + 1] != '('
    requires Find(s, i + c) == eq + c && s[i + c..eq + c] == s[c..][i..eq]
    ensures ReadHead(s, i + c) == ShiftedHead(ReadHead(s[c..], i), c)
  {
    var t := s[c..];
    FirstShifts(s, {')', ','}, c, eq + 1);
    var end := FindDelim(t, eq + 1);
    AtomHeadIs(t, i, eq, end);
    SliceShifts(s, c, eq + 1, if end == |t| then end - 1 else end);
    ValueShifts(s, t, c, i, eq, end);
  }

  lemma ValueShifts(s: string, t: string, c: nat, i: nat, eq: nat, end: nat)
    requires |s| == |t| + c && i <= |t| && eq == Find(t, i) && eq + 1 < |t| && end == FindDelim(t, eq + 1)
    requires Find(s, i + c) == eq + c && FindDelim(s, eq + 1 + c) == end + c
    requires t[eq + 1] != '(' && s[eq + 1 + c] == t[eq + 1] && s[i + c..eq + c] == t[i..eq]
    requires var stop := if end == |t| then end - 1 else end;
      eq + 1 <= stop && s[eq + 1 + c..stop + c] == t[eq + 1..stop]
    requires end < |t| ==> s[end + c] == t[end]
    ensures ReadHead(s, i + c) == ShiftedHead(ReadHead(t, i), c)
  {
    AtomHeadIs(t, i, eq, end);
    AtomHeadIs(s, i + c, eq + c, end + c);
    if end == |t| {
      assert ReadHead(t, i) == AtomHead(t[i..eq], t[eq + 1..end - 1], end, false);
      assert ReadHead(s, i + c) == AtomHead(t[i..eq], t[eq + 1..end - 1], end + c, false);
    } else {
      assert ReadHead(t, i) == AtomHead(t[i..eq], t[eq + 1..end], end + 1, t[end] == ')');
      assert ReadHead(s, i + c) == AtomHead(t[i..eq], t[eq + 1..end], end + c + 1, t[end] == ')');
    }
  }

  lemma AtomHeadIs(s: string, cursor: nat, eq: nat, end: nat)
    requires cursor <= |s| && eq == Find(s, cursor) && eq + 1 < |s| && s[eq + 1] != '(' && end == FindDelim(s, eq + 1)
    ensures eq + 1 <= end && (end == |s| ==> eq + 1 < end)
    ensures ReadHead(s, cursor) ==
              if end == |s| then AtomHead(s[cursor..eq], s[eq + 1..end - 1], end, false)
              else AtomHead(s[cursor..eq], s[eq + 1..end], end + 1, s[end] == ')')
  {
  }

  lemma SliceShifts(s: string, c: nat, a: nat, b: nat)
    requires c <= |s| && a <= b <= |s| - c
    ensures s[c..][a..b] == s[a + c..b + c]
  {
  }

  lemma SkipShifts(s: string, c: nat, i: nat)
    requires c <= |s| && i <= |s| - c
    ensures Skip(s, i + c) == Skip(s[c..], i) + c
  {
  }

  lemma SuffixScanner(s: string, c: nat)
    requires c <= |s|
    ensures Suffix(ScannerOf(s), ScannerOf(s[c..]), c)
  {
    var sc, t := ScannerOf(s), ScannerOf(s[c..]);
    ScannerSees(s);
    ScannerSees(s[c..]);
    forall i: nat | i <= t.len ensures SeesSame(sc, t, c, i) {
      HeadShifts(s, c, i);
      HeadAt(s, sc, i + c);
      HeadAt(s[c..], t, i);
      SkipShifts(s, c, i);
    }
  }

  // Parsing a suffix on its own is parsing from its position, with positions counted from there.
  lemma ParseSuffix(s: string, c: nat)
    requires c <= |s|
    ensures ParseFrom(ScannerOf(s), c, []) == Shifted(ParseKv(s[c..]), c)
  {
    SuffixScanner(s, c);
    ParseShifts(ScannerOf(s), ScannerOf(s[c..]), c, 0, []);
  }

  // ---- the parser ----

  // Scans an atomic value character by character; next ends up past the delimiter, or at the end.
  method ScanValue(s: string, cursor: nat) returns (next: nat, last: char)
    requires cursor < |s|
    ensures var end := FindDelim(s, cursor);
      && next == (if end == |s| then |s| else end + 1) && cursor < next
      && (last == ')' <==> end < |s| && s[end] == ')')
  {
    next, last := cursor, ' ';
    while next < |s| && last != ')' && last != ','
      invariant cursor <= next <= |s|
      invariant cursor < next ==> last == s[next - 1]
      invariant cursor == next ==> last == ' '
      invariant forall i :: cursor <= i < next - 1 ==> s[i] != ')' && s[i] != ','
    {
      last := s[next];
      next := next + 1;
    }
    FirstUnique(s, {')', ','}, cursor, if last == ')' || last == ',' then next - 1 else next);
  }

  ghost predicate ReadsSuffix(s: string, sc: Scanner, c: nat)
    requires ScannerOk(sc) && c <= |s| && sc.len == |s|
  {
    ParseFrom(sc, c, []) == Shifted(ParseKv(s[c..]), c)
  }

  ghost predicate Reads(sc: Scanner, s: string) {
    Sees(sc, s) && forall c: nat {:trigger ReadsSuffix(s, sc, c)} :: c <= |s| ==> ReadsSuffix(s, sc, c)
  }

  lemma ReaderOf(s: string) returns (sc: Scanner)
    ensures Reads(sc, s) && ParseKv(s) == ParseFrom(sc, 0, [])
  {
    sc := ScannerOf(s);
    ScannerSees(s);
    forall c: nat | c <= |s| ensures ReadsSuffix(s, sc, c) { ParseSuffix(s, c); }
  }

  // Reads the value at `start` of the key whose '=' is just before.
  method ReadAtom(s: string, ghost sc: Scanner, cursor: nat, start: nat, kvs: seq<Item>)
    returns (more: seq<Item>, next: nat, closed: bool)
    requires Sees(sc, s) && cursor < start < |s| && start == Find(s, cursor) + 1 && s[start] != '('
    ensures Continues(sc, cursor, kvs, more, next, closed)
  {
    var last: char;
    next, last := ScanValue(s, start);
    closed := last == ')';
    more := Assign(kvs, s[cursor..start - 1], Atom(s[start..next - 1]));
    HeadAt(s, sc, cursor);
    assert sc.head(cursor) == AtomHead(s[cursor..start - 1], s[start..next - 1], next, closed);
    AfterAtom(sc, cursor, kvs);
  }

  // Parses what follows a position as a string of its own.
  method ParseRest(s: string, ghost sc: Scanner, start: nat) returns (r: Option<(seq<Item>, nat)>)
    requires Reads(sc, s) && 0 < start <= |s|
    ensures ParseFrom(sc, start, []) == Shifted(r, start)
    decreases |s|, 0
  {
    r := ParseKvMethod(s[start..]);
    assert ReadsSuffix(s, sc, start);
  }

  method ReadGroup(s: string, ghost sc: Scanner, cursor: nat, start: nat, kvs: seq<Item>)
    returns (r: Option<(seq<Item>, nat)>)
    requires Reads(sc, s) && cursor < start < |s| && start == Find(s, cursor) + 1 && s[start] == '('
    ensures r == None ==> ParseFrom(sc, cursor, kvs) == None
    ensures r.Some? ==> Continues(sc, cursor, kvs, r.value.0, r.value.1, false)
    decreases |s|, 1
  {
    var inner := ParseRest(s, sc, start + 1);
    OpensGroup(s, sc, cursor, start);
    GroupAt(sc, cursor, s[cursor..start - 1], start + 1, inner, kvs);
    if inner == None { return None; }
    var more := Assign(kvs, s[cursor..start - 1], Group(inner.value.0));
    return Some((more, start + 1 + inner.value.1));
  }

  // A group reads what follows its '(' as a string of its own.
  lemma GroupAt(sc: Scanner, cursor: nat, key: string, start: nat, inner: Option<(seq<Item>, nat)>, kvs: seq<Item>)
    requires ScannerOk(sc) && cursor <= sc.len && start <= sc.len && sc.head(cursor) == GroupHead(key, start)
    requires ParseFrom(sc, start, []) == Shifted(inner, start)
    ensures inner == None ==> ParseFrom(sc, cursor, kvs) == None
    ensures inner.Some? ==>
              Continues(sc, cursor, kvs, WithKey(kvs, key, Group(inner.value.0)), start + inner.value.1, false)
  {
    AfterGroup(sc, cursor, kvs);
  }

  lemma OpensGroup(s: string, sc: Scanner, cursor: nat, start: nat)
    requires Sees(sc, s) && cursor < start < |s| && start == Find(s, cursor) + 1 && s[start] == '('
    ensures sc.head(cursor) == GroupHead(s[cursor..start - 1], start + 1)
  {
    HeadAt(s, sc, cursor);
  }

  // Reads the key whose '=' is at eq and its value; done tells that the parser returns there.
  method ReadOne(s: string, ghost sc: Scanner, cursor: nat, eq: nat, kvs: seq<Item>)
    returns (r: Option<(seq<Item>, nat)>, done: bool)
    requires Reads(sc, s) && cursor <= eq < |s| && eq == Find(s, cursor)
    ensures done ==> r == ParseFrom(sc, cursor, kvs)
    ensures !done ==> r.Some? && cursor < r.value.1 < |s|
                      && ParseFrom(sc, cursor, kvs) == ParseFrom(sc, Skip(s, r.value.1), r.value.0)
    decreases |s|, 2
  {
    if eq + 1 >= |s| {
      HeadAt(s, sc, cursor);
      return None, true;
    }
    var closed := false;
    if s[eq + 1] == '(' {
      r := ReadGroup(s, sc, cursor, eq + 1, kvs);
      if r == None { return None, true; }
    } else {
      var more, next;
      more, next, closed := ReadAtom(s, sc, cursor, eq + 1, kvs);
      r := Some((more, next));
    }
    HeadAt(s, sc, r.value.1);
    done := closed || r.value.1 >= |s|;
  }

  method ParseKvMethod(s: string) returns (r: Option<(seq<Item>, nat)>)
    ensures r == ParseKv(s)
    decreases |s|, 3
  {
    ghost var sc := ReaderOf(s);
    var kvs := [];
    var cursor := 0;
    var next := FindEq(s, cursor);
    while next < |s|
      invariant cursor <= |s| && next == Find(s, cursor)
      invariant ParseFrom(sc, cursor, kvs) == ParseFrom(sc, 0, [])
      decreases |s| - cursor
    {
      var one, done := ReadOne(s, sc, cursor, next, kvs);
      if done { return one; }
      kvs, cursor := one.value.0, one.value.1;
      if s[cursor] == ',' { cursor := cursor + 1; }
      next := FindEq(s, cursor);
    }
    HeadAt(s, sc, cursor);
    return Some((kvs, cursor));
  }

  // ---- totality ----

  lemma {:induction false} ParseTotal(sc: Scanner, cursor: nat, kvs: seq<Item>)
    requires ScannerOk(sc) && cursor <= sc.len && forall c: nat :: c <= sc.len ==> !sc.head(c).Bare?
    ensures ParseFrom(sc, cursor, kvs).Some?
    decreases sc.len - cursor
  {
    assert OkAt(sc, cursor);
    match sc.head(cursor)
    case NoKey =>
    case AtomHead(key, text, next, closed) =>
      assert OkAt(sc, next);
      if !closed && next < sc.len { ParseTotal(sc, sc.skip(next), WithKey(kvs, key, Atom(text))); }
    case GroupHead(key, start) =>
      ParseTotal(sc, start, []);
      var (inner, next) := ParseFrom(sc, start, []).value;
      assert OkAt(sc, next);
      if next < sc.len { ParseTotal(sc, sc.skip(next), WithKey(kvs, key, Group(inner))); }
  }

  // The parser fails only on input that ends in '=', and its cursor stays within the input.
  lemma ParserTotal(s: string)
    requires |s| > 0 ==> s[|s| - 1] != '='
    ensures ParseKv(s).Some? && ParseKv(s).value.1 <= |s|
  {
    ScannerSees(s);
    ParseTotal(ScannerOf(s), 0, []);
  }

  // On other input it may fail: nothing can follow the '='.
  lemma ParseFailsOnBareKey(key: string)
    requires '=' !in key
    ensures ParseKv(key + "=") == None
  {
    var s := key + "=";
    assert s[|key|] == '=';
    assert forall i :: 0 <= i < |key| ==> s[i] == key[i];
    FirstUnique(s, {'='}, 0, |key|);
  }
}
