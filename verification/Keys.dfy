/** Record keys: unpadded base64url segments (section 5 of RFC 4648) joined by dots, and why a prefix scan is exact. */
module Keys {
  import opened Events

  type Sextet = v: nat | v < 64

  const DOT: Byte := 46

  // "project", "event", "replica", "head"
  const PROJECT: Text := [112, 114, 111, 106, 101, 99, 116]
  const EVENT: Text := [101, 118, 101, 110, 116]
  const REPLICA: Text := [114, 101, 112, 108, 105, 99, 97]
  const HEAD: Text := [104, 101, 97, 100]

  // The URL-safe alphabet: A-Z, a-z, 0-9, '-' and '_'.
  function Letter(v: Sextet): (b: Byte)
    ensures b != DOT && Value(b) == Some(v)
  {
    if v < 26 then 65 + v
    else if v < 52 then 97 + (v - 26)
    else if v < 62 then 48 + (v - 52)
    else if v == 62 then 45
    else 95
  }

  function Value(b: Byte): Option<Sextet> {
    if 65 <= b <= 90 then Some(b - 65)
    else if 97 <= b <= 122 then Some(b - 97 + 26)
    else if 48 <= b <= 57 then Some(b - 48 + 52)
    else if b == 45 then Some(62)
    else if b == 95 then Some(63)
    else None
  }

  // Three bytes make four sextets, a shorter tail two or three.
  function Sextets(t: Text): seq<Sextet> {
    if t == [] then []
    else if |t| == 1 then [t[0] / 4, t[0] % 4 * 16]
    else if |t| == 2 then [t[0] / 4, t[0] % 4 * 16 + t[1] / 16, t[1] % 16 * 4]
    else [t[0] / 4, t[0] % 4 * 16 + t[1] / 16, t[1] % 16 * 4 + t[2] / 64, t[2] % 64] + Sextets(t[3..])
  }

  function Spell(v: seq<Sextet>): Text {
    if v == [] then [] else [Letter(v[0])] + Spell(v[1..])
  }

  // base64.RawURLEncoding.EncodeToString
  function KeyPart(t: Text): Text {
    Spell(Sextets(t))
  }

  function Values(s: Text): Option<seq<Sextet>> {
    if s == [] then Some([])
    else
      var rest := Values(s[1..]);
      if Value(s[0]).Some? && rest.Some? then Some([Value(s[0]).value] + rest.value) else None
  }

  function High(a: Sextet, b: Sextet): Byte {
    var x: int, y: int := a, b;
    x * 4 + y / 16
  }

  function Middle(b: Sextet, c: Sextet): Byte {
    var x: int, y: int := b, c;
    x % 16 * 16 + y / 4
  }

  function Low(c: Sextet, d: Sextet): Byte {
    var x: int, y: int := c, d;
    x % 4 * 64 + y
  }

  // The inverse of Sextets; a lone sextet encodes nothing.
  function Bytes(v: seq<Sextet>): Option<Text> {
    if v == [] then Some([])
    else if |v| == 1 then None
    else if |v| == 2 then Some([High(v[0], v[1])])
    else if |v| == 3 then Some([High(v[0], v[1]), Middle(v[1], v[2])])
    else
      var rest := Bytes(v[4..]);
      if rest.None? then None else Some([High(v[0], v[1]), Middle(v[1], v[2]), Low(v[2], v[3])] + rest.value)
  }

  function Decode(s: Text): Option<Text> {
    match Values(s)
    case None => None
    case Some(v) => Bytes(v)
  }

  lemma {:induction false} SpellingReads(v: seq<Sextet>)
    ensures Values(Spell(v)) == Some(v) && NoDot(Spell(v))
  {
    if v != [] {
      SpellingReads(v[1..]);
      assert Spell(v)[1..] == Spell(v[1..]);
      assert v == [v[0]] + v[1..];
    }
  }

  // The arithmetic of one group.
  lemma ThreeBack(x: Byte, y: Byte, z: Byte)
    ensures High(x / 4, x % 4 * 16 + y / 16) == x && Middle(x % 4 * 16 + y / 16, y % 16 * 4 + z / 64) == y && Low(y % 16 * 4 + z / 64, z % 64) == z
    ensures High(x / 4, x % 4 * 16) == x && Middle(x % 4 * 16 + y / 16, y % 16 * 4) == y
  {
  }

  lemma {:induction false} BytesBack(t: Text)
    ensures Bytes(Sextets(t)) == Some(t)
  {
    hide High, Middle, Low;
    if |t| >= 3 {
      BytesBack(t[3..]);
      ThreeBack(t[0], t[1], t[2]);
      assert Sextets(t)[4..] == Sextets(t[3..]);
      assert t == [t[0], t[1], t[2]] + t[3..];
    } else if |t| == 2 {
      ThreeBack(t[0], t[1], 0);
      assert t == [t[0], t[1]];
    } else if |t| == 1 {
      ThreeBack(t[0], 0, 0);
      assert t == [t[0]];
    }
  }

  // Every id, blank, binary or full of dots, is recovered from its segment.
  lemma PartRoundTrip(t: Text)
    ensures Decode(KeyPart(t)) == Some(t)
  {
    SpellingReads(Sextets(t));
    BytesBack(t);
  }

  predicate NoDot(t: Text) {
    DOT !in t
  }

  lemma PartHasNoDot(t: Text)
    ensures NoDot(KeyPart(t))
  {
    SpellingReads(Sextets(t));
  }

  // ------------------------------------------------------------------- keys

  function EventKey(project: Text, event: Text): Text {
    PROJECT + [DOT] + KeyPart(project) + [DOT] + EVENT + [DOT] + KeyPart(event)
  }

  function OutboxKeyPrefix(project: Text, replica: Text): Text {
    PROJECT + [DOT] + KeyPart(project) + [DOT] + REPLICA + [DOT] + KeyPart(replica) + [DOT] + EVENT + [DOT]
  }

  function OutboxKey(project: Text, replica: Text, event: Text): Text {
    OutboxKeyPrefix(project, replica) + KeyPart(event)
  }

  function HeadKey(project: Text): Text {
    PROJECT + [DOT] + KeyPart(project) + [DOT] + HEAD
  }

  // The pieces between the dots.
  function Split(t: Text): (parts: seq<Text>)
    ensures parts != []
  {
    if t == [] then [[]]
    else if t[0] == DOT then [[]] + Split(t[1..])
    else
      var rest := Split(t[1..]);
      [[t[0]] + rest[0]] + rest[1..]
  }

  lemma {:induction false} SplitFirst(a: Text, rest: Text)
    requires NoDot(a)
    ensures Split(a + [DOT] + rest) == [a] + Split(rest)
  {
    var t := a + [DOT] + rest;
    if a == [] {
      assert t[1..] == rest;
    } else {
      assert NoDot(a[1..]);
      SplitFirst(a[1..], rest);
      assert t[1..] == a[1..] + [DOT] + rest;
      assert a == [a[0]] + a[1..];
    }
  }

  lemma {:induction false} SplitOne(a: Text)
    requires NoDot(a)
    ensures Split(a) == [a]
  {
    if a != [] {
      assert NoDot(a[1..]);
      SplitOne(a[1..]);
      assert a == [a[0]] + a[1..];
    }
  }

  lemma SplitTwo(a: Text, b: Text, rest: Text)
    requires NoDot(a) && NoDot(b)
    ensures Split(a + [DOT] + b + [DOT] + rest) == [a, b] + Split(rest)
  {
    hide Split;
    SplitFirst(a, b + [DOT] + rest);
    SplitFirst(b, rest);
    assert a + [DOT] + b + [DOT] + rest == a + [DOT] + (b + [DOT] + rest);
  }

  // Splitting a key at its dots gives back the segments it was built from, whatever follows the last one.
  lemma SplitScanned(project: Text, replica: Text, rest: Text)
    ensures Split(OutboxKeyPrefix(project, replica) + rest) == [PROJECT, KeyPart(project), REPLICA, KeyPart(replica), EVENT] + Split(rest)
  {
    hide Split, KeyPart;
    var e := EVENT + [DOT] + rest;
    var r := REPLICA + [DOT] + KeyPart(replica) + [DOT] + e;
    PartHasNoDot(project);
    PartHasNoDot(replica);
    SplitFirst(EVENT, rest);
    SplitTwo(REPLICA, KeyPart(replica), e);
    SplitTwo(PROJECT, KeyPart(project), r);
    Regroup(PROJECT + [DOT] + KeyPart(project) + [DOT], REPLICA + [DOT] + KeyPart(replica) + [DOT], EVENT + [DOT], rest);
    Spelled(PROJECT + [DOT] + KeyPart(project) + [DOT], REPLICA, KeyPart(replica), EVENT);
  }

  lemma Regroup(a: Text, b: Text, c: Text, d: Text)
    ensures a + b + c + d == a + (b + (c + d))
  {
  }

  lemma Spelled(a: Text, b: Text, c: Text, d: Text)
    ensures a + b + [DOT] + c + [DOT] + d + [DOT] == a + (b + [DOT] + c + [DOT]) + (d + [DOT])
  {
  }

  lemma SplitEventKey(project: Text, event: Text)
    ensures Split(EventKey(project, event)) == [PROJECT, KeyPart(project), EVENT, KeyPart(event)]
  {
    hide Split, KeyPart;
    var e := EVENT + [DOT] + KeyPart(event);
    PartHasNoDot(project);
    PartHasNoDot(event);
    SplitOne(KeyPart(event));
    SplitFirst(EVENT, KeyPart(event));
    SplitTwo(PROJECT, KeyPart(project), e);
    Regroup(PROJECT + [DOT] + KeyPart(project) + [DOT], EVENT, [DOT], KeyPart(event));
    assert e == EVENT + ([DOT] + KeyPart(event));
  }

  lemma SplitHeadKey(project: Text)
    ensures Split(HeadKey(project)) == [PROJECT, KeyPart(project), HEAD]
  {
    hide Split, KeyPart;
    PartHasNoDot(project);
    SplitOne(HEAD);
    SplitTwo(PROJECT, KeyPart(project), HEAD);
  }

  // Scanning for one project's replica finds exactly that pair's rows, for all ids.
  lemma PrefixIsExact(project: Text, replica: Text, project': Text, replica': Text, event: Text)
    ensures OutboxKeyPrefix(project, replica) <= OutboxKey(project', replica', event) <==> project == project' && replica == replica'
  {
    var prefix, key := OutboxKeyPrefix(project, replica), OutboxKey(project', replica', event);
    if prefix <= key {
      SplitScanned(project, replica, key[|prefix|..]);
      SplitScanned(project', replica', KeyPart(event));
      assert key == prefix + key[|prefix|..];
      PartsPinned([PROJECT, KeyPart(project), REPLICA, KeyPart(replica), EVENT], Split(key[|prefix|..]),
                  [PROJECT, KeyPart(project'), REPLICA, KeyPart(replica'), EVENT], Split(KeyPart(event)));
      PartRoundTrip(project);
      PartRoundTrip(project');
      PartRoundTrip(replica);
      PartRoundTrip(replica');
    }
  }

  lemma PartsPinned(a: seq<Text>, x: seq<Text>, b: seq<Text>, y: seq<Text>)
    requires |a| == 5 && |b| == 5 && a + x == b + y
    ensures a[1] == b[1] && a[3] == b[3] && x == y
  {
    assert (a + x)[1] == (b + y)[1] && (a + x)[3] == (b + y)[3];
    assert x == (a + x)[5..] && y == (b + y)[5..];
  }

  lemma OutboxKeyInjective(project: Text, replica: Text, event: Text, project': Text, replica': Text, event': Text)
    requires OutboxKey(project, replica, event) == OutboxKey(project', replica', event')
    ensures project == project' && replica == replica' && event == event'
  {
    PrefixIsExact(project, replica, project', replica', event');
    PartRoundTrip(event);
    PartRoundTrip(event');
    assert KeyPart(event) == OutboxKey(project, replica, event)[|OutboxKeyPrefix(project, replica)|..];
  }

  lemma EventKeyInjective(project: Text, event: Text, project': Text, event': Text)
    requires EventKey(project, event) == EventKey(project', event')
    ensures project == project' && event == event'
  {
    SplitEventKey(project, event);
    SplitEventKey(project', event');
    assert Split(EventKey(project, event))[1] == KeyPart(project') && Split(EventKey(project, event))[3] == KeyPart(event');
    PartRoundTrip(project);
    PartRoundTrip(project');
    PartRoundTrip(event);
    PartRoundTrip(event');
  }

  lemma HeadKeyInjective(project: Text, project': Text)
    requires HeadKey(project) == HeadKey(project')
    ensures project == project'
  {
    SplitHeadKey(project);
    SplitHeadKey(project');
    assert Split(HeadKey(project))[1] == KeyPart(project');
    PartRoundTrip(project);
    PartRoundTrip(project');
  }
}
