/** Header handling in `proxy`: removeHopByHopHeaders, copyHeaders and addForwardingHeaders
    (internal/server/server.go), over Go's http.Header, a map from canonical keys to value lists. */
module Headers {
  import opened Wrappers
  import opened Text

  type Values = seq<string>
  type Table = map<string, Values>

  // ---------------------------------------------------------------- canonical keys

  /** The characters of a token in section 5.6.2 of RFC 9110. */
  predicate IsTokenChar(c: char) {
    '0' <= c <= '9' || 'A' <= c <= 'Z' || 'a' <= c <= 'z' || c in "!#$%&'*+-.^_`|~"
  }

  function Upper(c: char): char {
    if 'a' <= c <= 'z' then c - 'a' + 'A' else c
  }

  /** The first letter and every letter after a hyphen in upper case, all others in lower case. */
  function Capitalized(s: string): (r: string)
    ensures |r| == |s|
  {
    seq(|s|, i requires 0 <= i < |s| => if i == 0 || s[i - 1] == '-' then Upper(s[i]) else AsciiLower(s[i]))
  }

  predicate IsToken(name: string) {
    forall i :: 0 <= i < |name| ==> IsTokenChar(name[i])
  }

  /** A name that is not a token is left as it is. */
  function Canonical(name: string): string {
    if IsToken(name) then Capitalized(name) else name
  }

  /** Capitals, small letters and hyphens stay what they are, up to case. */
  lemma CapitalizedAt(name: string, i: nat)
    requires i < |name|
    ensures SameLetter(Capitalized(name)[i], name[i]) && (Capitalized(name)[i] == '-' <==> name[i] == '-')
  {
  }

  lemma UpperMeaning(c: char, d: char)
    ensures Upper(c) == Upper(d) <==> SameLetter(c, d)
  {
  }

  lemma SameStart(a: string, b: string, i: nat)
    requires i < |a| == |b|
    requires i > 0 ==> (a[i - 1] == '-' <==> b[i - 1] == '-')
    ensures Capitalized(a)[i] == Capitalized(b)[i] <==> SameLetter(a[i], b[i])
  {
    UpperMeaning(a[i], b[i]);
    AsciiLowerMeaning(a[i], b[i]);
  }

  /** Capitalizing forgets exactly the letter case. */
  lemma CapitalizedMeaning(a: string, b: string)
    ensures Capitalized(a) == Capitalized(b) <==> SameButCase(a, b)
  {
    var r, s := Capitalized(a), Capitalized(b);
    if r == s || SameButCase(a, b) {
      forall i | 0 <= i < |a|
        ensures r[i] == s[i] <==> SameLetter(a[i], b[i])
      {
        if i > 0 {
          CapitalizedAt(a, i - 1);
          CapitalizedAt(b, i - 1);
        }
        SameStart(a, b, i);
      }
    }
  }

  /** Canonical keys are the header names up to letter case. */
  lemma CanonicalMeaning(a: string, b: string)
    requires IsToken(a) && IsToken(b)
    ensures Canonical(a) == Canonical(b) <==> SameButCase(a, b)
  {
    CapitalizedMeaning(a, b);
  }

  lemma TokenUpToCase(a: string, b: string)
    requires IsToken(b) && SameButCase(a, b)
    ensures IsToken(a)
  {
  }

  /** The same against any text: what is not a token is no spelling of a token. */
  lemma CanonicalAgainst(text: string, name: string)
    requires IsToken(name)
    ensures Canonical(text) == Canonical(name) <==> SameButCase(text, name)
  {
    if IsToken(text) {
      CanonicalMeaning(text, name);
    } else {
      forall i | 0 <= i < |name|
        ensures IsTokenChar(Canonical(name)[i])
      {
        CharFacts(name[i]);
      }
      if SameButCase(text, name) {
        TokenUpToCase(text, name);
      }
    }
  }

  lemma CanonicalIdempotent(name: string)
    ensures Canonical(Canonical(name)) == Canonical(name)
  {
    if IsToken(name) {
      var r := Capitalized(name);
      forall i | 0 <= i < |name|
        ensures IsTokenChar(r[i]) && (r[i] == '-' <==> name[i] == '-')
      {
        CharFacts(name[i]);
      }
      forall i | 0 <= i < |name|
        ensures Capitalized(r)[i] == r[i]
      {
        CharFacts(name[i]);
      }
      assert Capitalized(r) == r;
    }
  }

  lemma CharFacts(c: char)
    requires IsTokenChar(c)
    ensures IsTokenChar(Upper(c)) && IsTokenChar(AsciiLower(c))
    ensures (Upper(c) == '-' <==> c == '-') && (AsciiLower(c) == '-' <==> c == '-')
    ensures Upper(Upper(c)) == Upper(c) && AsciiLower(AsciiLower(c)) == AsciiLower(c)
  {
  }

  function ValuesAt(h: Table, key: string): Values {
    if key in h then h[key] else []
  }

  /** The first value, or the empty string. */
  function First(h: Table, key: string): string {
    if ValuesAt(h, key) == [] then "" else ValuesAt(h, key)[0]
  }

  /** `Header.Values` and `Header.Get`: lookups under the canonical key. */
  function All(h: Table, name: string): Values {
    ValuesAt(h, Canonical(name))
  }

  function Get(h: Table, name: string): string {
    First(h, Canonical(name))
  }

  // ---------------------------------------------------------------- hop-by-hop headers

  /** `strings.Split` at commas. */
  function Split(s: string): (parts: seq<string>)
    ensures parts != []
  {
    var i := IndexOf(s, ',');
    if i == |s| then [s] else [s[..i]] + Split(s[i + 1..])
  }

  function Join(parts: seq<string>, separator: string): string {
    if parts == [] then "" else if |parts| == 1 then parts[0] else parts[0] + separator + Join(parts[1..], separator)
  }

  /** `Split` is the one way to cut a string at its commas. */
  lemma {:induction false} SplitJoins(s: string)
    ensures Join(Split(s), ",") == s && forall i :: 0 <= i < |Split(s)| ==> ',' !in Split(s)[i]
  {
    var i := IndexOf(s, ',');
    if i < |s| {
      SplitJoins(s[i + 1..]);
      assert s == s[..i] + "," + s[i + 1..];
    }
  }

  const HOP_BY_HOP := ["Connection", "Proxy-Connection", "Keep-Alive", "Proxy-Authenticate",
                       "Proxy-Authorization", "TE", "Trailer", "Transfer-Encoding", "Upgrade"]

  /** The key that a text names, if it is more than white space. */
  function KeyOf(text: string): set<string> {
    if TrimSpace(text) != "" then {Canonical(TrimSpace(text))} else {}
  }

  function Union<T>(items: seq<T>, keys: T -> set<string>): set<string> {
    if items == [] then {} else Union(items[..|items| - 1], keys) + keys(items[|items| - 1])
  }

  lemma {:induction false} UnionMeaning<T>(items: seq<T>, keys: T -> set<string>, key: string)
    ensures key in Union(items, keys) <==> exists i :: 0 <= i < |items| && key in keys(items[i])
  {
    if items != [] {
      var n := |items| - 1;
      var front := items[..n];
      UnionMeaning(front, keys, key);
      if i :| 0 <= i < |items| && key in keys(items[i]) {
        assert i < n ==> front[i] == items[i];
      }
      if i :| 0 <= i < |front| && key in keys(front[i]) {
        assert items[i] == front[i];
      }
    }
  }

  lemma UnionPrefix<T>(items: seq<T>, keys: T -> set<string>, i: nat)
    requires i < |items|
    ensures Union(items[..i + 1], keys) == Union(items[..i], keys) + keys(items[i])
  {
    assert items[..i + 1][..i] == items[..i];
  }

  /** The keys named by a list of header names. */
  function KeysOf(names: seq<string>): set<string> {
    Union(names, KeyOf)
  }

  function KeysIn(value: string): set<string> {
    KeysOf(Split(value))
  }

  /** The keys named by any of the Connection values. */
  function ConnectionKeys(values: Values): set<string> {
    Union(values, KeysIn)
  }

  lemma ConnectionKeysMeaning(values: Values, key: string)
    ensures key in ConnectionKeys(values) <==> exists i :: 0 <= i < |values| && key in KeysIn(values[i])
  {
    UnionMeaning(values, KeysIn, key);
  }

  /** Section 7.6.1 of RFC 9110: the headers named by Connection, and the fixed list. */
  function HopKeys(h: Table): set<string> {
    ConnectionKeys(All(h, "Connection")) + KeysOf(HOP_BY_HOP)
  }

  function EndToEnd(h: Table): Table {
    h - HopKeys(h)
  }

  predicate Bare(s: string) {
    s != "" && !IsSpace(s[0]) && !IsSpace(s[|s| - 1])
  }

  lemma FixedListIsBare()
    ensures forall i :: 0 <= i < |HOP_BY_HOP| ==> Bare(HOP_BY_HOP[i])
  {
  }

  /** What is kept, in terms of the original table alone, and that it is kept as it was. */
  lemma EndToEndMeaning(h: Table, key: string)
    ensures key in EndToEnd(h) <==>
            && key in h
            && (forall i :: 0 <= i < |All(h, "Connection")| ==> key !in KeysIn(All(h, "Connection")[i]))
            && (forall i :: 0 <= i < |HOP_BY_HOP| ==> key != Canonical(HOP_BY_HOP[i]))
    ensures key in EndToEnd(h) ==> EndToEnd(h)[key] == h[key]
  {
    ConnectionKeysMeaning(All(h, "Connection"), key);
    KeysOfFixed(key);
  }

  lemma KeysOfFixed(key: string)
    ensures key in KeysOf(HOP_BY_HOP) <==> exists i :: 0 <= i < |HOP_BY_HOP| && key == Canonical(HOP_BY_HOP[i])
  {
    UnionMeaning(HOP_BY_HOP, KeyOf, key);
    FixedListIsBare();
    forall i | 0 <= i < |HOP_BY_HOP|
      ensures TrimSpace(HOP_BY_HOP[i]) == HOP_BY_HOP[i] != ""
    {
      assert Bare(HOP_BY_HOP[i]);
    }
  }

  /** A Connection value lists the name, in some letter case and with white space around it. */
  ghost predicate IsListed(values: Values, name: string) {
    exists i, j :: 0 <= i < |values| && 0 <= j < |Split(values[i])| && SameButCase(TrimSpace(Split(values[i])[j]), name)
  }

  ghost predicate IsHopByHop(name: string) {
    || SameButCase(name, "Connection") || SameButCase(name, "Proxy-Connection") || SameButCase(name, "Keep-Alive")
    || SameButCase(name, "Proxy-Authenticate") || SameButCase(name, "Proxy-Authorization") || SameButCase(name, "TE")
    || SameButCase(name, "Trailer") || SameButCase(name, "Transfer-Encoding") || SameButCase(name, "Upgrade")
  }

  lemma FixedMeaning(name: string)
    requires IsToken(name)
    ensures Canonical(name) in KeysOf(HOP_BY_HOP) <==> IsHopByHop(name)
  {
    KeysOfFixed(Canonical(name));
    forall i | 0 <= i < |HOP_BY_HOP|
      ensures Canonical(HOP_BY_HOP[i]) == Canonical(name) <==> SameButCase(name, HOP_BY_HOP[i])
    {
      CanonicalAgainst(HOP_BY_HOP[i], name);
      SameButCaseSymmetric(HOP_BY_HOP[i], name);
    }
    NineNames(name);
  }

  lemma SameButCaseSymmetric(a: string, b: string)
    ensures SameButCase(a, b) <==> SameButCase(b, a)
  {
  }

  lemma NineNames(name: string)
    ensures (exists i :: 0 <= i < |HOP_BY_HOP| && SameButCase(name, HOP_BY_HOP[i])) <==> IsHopByHop(name)
  {
    assert |HOP_BY_HOP| == 9;
    if IsHopByHop(name) {
      assert || SameButCase(name, HOP_BY_HOP[0]) || SameButCase(name, HOP_BY_HOP[1])
             || SameButCase(name, HOP_BY_HOP[2]) || SameButCase(name, HOP_BY_HOP[3])
             || SameButCase(name, HOP_BY_HOP[4]) || SameButCase(name, HOP_BY_HOP[5])
             || SameButCase(name, HOP_BY_HOP[6]) || SameButCase(name, HOP_BY_HOP[7])
             || SameButCase(name, HOP_BY_HOP[8]);
    }
  }

  lemma ListedMeaning(values: Values, name: string)
    requires IsToken(name) && name != ""
    ensures Canonical(name) in ConnectionKeys(values) <==> IsListed(values, name)
  {
    ConnectionKeysMeaning(values, Canonical(name));
    forall i | 0 <= i < |values|
      ensures Canonical(name) in KeysIn(values[i])
              <==> exists j :: 0 <= j < |Split(values[i])| && Canonical(name) in KeyOf(Split(values[i])[j])
    {
      UnionMeaning(Split(values[i]), KeyOf, Canonical(name));
    }
    forall i, j | 0 <= i < |values| && 0 <= j < |Split(values[i])|
      ensures Canonical(TrimSpace(Split(values[i])[j])) == Canonical(name)
              <==> SameButCase(TrimSpace(Split(values[i])[j]), name)
    {
      CanonicalAgainst(TrimSpace(Split(values[i])[j]), name);
    }
  }

  /** The filter in plain words: a header goes exactly if some Connection value of the original lists its name, in any
      letter case, or if it is one of the nine hop-by-hop headers. */
  lemma EndToEndExactly(h: Table, name: string)
    requires IsToken(name) && name != ""
    ensures Canonical(name) in EndToEnd(h) <==>
              Canonical(name) in h && !IsListed(All(h, "Connection"), name) && !IsHopByHop(name)
  {
    ListedMeaning(All(h, "Connection"), name);
    FixedMeaning(name);
    FixedMeaning(name);
  }

  /** Filtering twice is filtering once. */
  lemma EndToEndIdempotent(h: Table)
    ensures EndToEnd(EndToEnd(h)) == EndToEnd(h)
  {
    KeysOfFixed(Canonical("Connection"));
    assert Canonical(HOP_BY_HOP[0]) == Canonical("Connection");
    FilterTwice(h, Canonical("Connection"), KeysOf(HOP_BY_HOP));
  }

  lemma FilterTwice(h: Table, connection: string, fixed: set<string>)
    requires connection in fixed
    ensures var e := h - (ConnectionKeys(ValuesAt(h, connection)) + fixed);
            e - (ConnectionKeys(ValuesAt(e, connection)) + fixed) == e
  {
    var e := h - (ConnectionKeys(ValuesAt(h, connection)) + fixed);
    assert ValuesAt(e, connection) == [];
  }

  lemma MinusTwice(h: Table, a: set<string>, b: set<string>)
    ensures h - a - b == h - (a + b)
    ensures h - a - {} == h - a
  {
  }

  class Header {
    var table: Table

    constructor (table: Table)
      ensures this.table == table
    {
      this.table := table;
    }

    method Del(name: string)
      modifies this
      ensures table == old(table) - {Canonical(name)}
    {
      table := table - {Canonical(name)};
    }

    method Set(name: string, value: string)
      modifies this
      ensures table == old(table)[Canonical(name) := [value]]
    {
      table := table[Canonical(name) := [value]];
    }

    method Add(name: string, value: string)
      modifies this
      ensures table == old(table)[Canonical(name) := All(old(table), name) + [value]]
    {
      table := table[Canonical(name) := All(table, name) + [value]];
    }

    /** The walk over one Connection value. */
    method DelListed(value: string)
      modifies this
      ensures table == old(table) - KeysIn(value)
    {
      var names := Split(value);
      for i := 0 to |names|
        invariant table == old(table) - KeysOf(names[..i])
      {
        UnionPrefix(names, KeyOf, i);
        var name := TrimSpace(names[i]);
        MinusTwice(old(table), KeysOf(names[..i]), {Canonical(name)});
        if name != "" {
          Del(name);
        }
      }
      assert names[..|names|] == names;
    }

    method DelAll(names: seq<string>)
      requires forall i :: 0 <= i < |names| ==> Bare(names[i])
      modifies this
      ensures table == old(table) - KeysOf(names)
    {
      for i := 0 to |names|
        invariant table == old(table) - KeysOf(names[..i])
      {
        UnionPrefix(names, KeyOf, i);
        MinusTwice(old(table), KeysOf(names[..i]), {Canonical(names[i])});
        Del(names[i]);
      }
      assert names[..|names|] == names;
    }

    /** The loop deletes from the table it is walking; the list of Connection values was fetched before,
        so a Connection header that names itself does not cut the walk short. */
    method RemoveHopByHop()
      modifies this
      ensures table == EndToEnd(old(table))
    {
      var connections := All(table, "Connection");
      for i := 0 to |connections|
        invariant table == old(table) - ConnectionKeys(connections[..i])
      {
        UnionPrefix(connections, KeysIn, i);
        MinusTwice(old(table), ConnectionKeys(connections[..i]), KeysIn(connections[i]));
        DelListed(connections[i]);
      }
      assert connections[..|connections|] == connections;
      FixedListIsBare();
      MinusTwice(old(table), ConnectionKeys(connections), KeysOf(HOP_BY_HOP));
      DelAll(HOP_BY_HOP);
      assert table == old(table) - HopKeys(old(table));
    }
  }

  // ---------------------------------------------------------------- copying

  function AddAll(h: Table, key: string, values: Values): Table {
    if values == [] then h else h[Canonical(key) := ValuesAt(h, Canonical(key)) + values]
  }

  /** The destination after the keys of `order` have been copied, first to last. */
  function Copied(destination: Table, source: Table, order: seq<string>): Table
    requires forall i :: 0 <= i < |order| ==> order[i] in source
  {
    if order == [] then destination
    else
      var last := order[|order| - 1];
      AddAll(Copied(destination, source, order[..|order| - 1]), last, source[last])
  }

  ghost predicate Enumerates(order: seq<string>, keys: set<string>) {
    && (forall i, j :: 0 <= i < j < |order| ==> order[i] != order[j])
    && (forall key :: key in order <==> key in keys)
  }

  /** Per key, the destination's values followed by the source's. */
  function Merged(destination: Table, source: Table): Table {
    map key | key in destination.Keys + source.Keys && (key in destination || source[key] != []) ::
      ValuesAt(destination, key) + ValuesAt(source, key)
  }

  ghost predicate AllCanonical(h: Table) {
    forall key :: key in h ==> Canonical(key) == key
  }

  lemma {:induction false} CopiedAt(destination: Table, source: Table, order: seq<string>, key: string)
    requires AllCanonical(source)
    requires forall i :: 0 <= i < |order| ==> order[i] in source
    requires forall i, j :: 0 <= i < j < |order| ==> order[i] != order[j]
    ensures var c := Copied(destination, source, order);
            && ValuesAt(c, key) == ValuesAt(destination, key) + (if key in order then source[key] else [])
            && (key in c <==> key in destination || (key in order && source[key] != []))
  {
    if order != [] {
      var last, front := order[|order| - 1], order[..|order| - 1];
      CopiedAt(destination, source, front, key);
      assert Canonical(last) == last && last !in front;
      assert key in order <==> key in front || key == last;
    }
  }

  /** For canonical keys, which is what a parsed response has, the order of the walk does not matter. */
  lemma CopyIgnoresOrder(destination: Table, source: Table, order: seq<string>)
    requires AllCanonical(source)
    requires Enumerates(order, source.Keys)
    ensures Copied(destination, source, order) == Merged(destination, source)
  {
    var c, m := Copied(destination, source, order), Merged(destination, source);
    forall key
      ensures key in c <==> key in m
      ensures key in c && key in m ==> c[key] == m[key]
    {
      CopiedAt(destination, source, order, key);
      assert key in order <==> key in source;
    }
  }

  /** Copying one key, value by value. */
  method AddValues(destination: Header, key: string, values: Values)
    modifies destination
    ensures destination.table == AddAll(old(destination.table), key, values)
  {
    for i := 0 to |values|
      invariant destination.table == AddAll(old(destination.table), key, values[..i])
    {
      ghost var before := ValuesAt(old(destination.table), Canonical(key));
      assert before + values[..i + 1] == (before + values[..i]) + [values[i]] && before + [] == before;
      destination.Add(key, values[i]);
    }
    assert values[..|values|] == values;
  }

  /** The walk over a table visits its keys in an order the language leaves open. */
  method CopyTable(destination: Header, table: Table)
    modifies destination
    ensures exists order ::
            Enumerates(order, table.Keys) && destination.table == Copied(old(destination.table), table, order)
  {
    var pending := table.Keys;
    ghost var order: seq<string> := [];
    while pending != {}
      invariant pending <= table.Keys && Enumerates(order, table.Keys - pending)
      invariant forall i :: 0 <= i < |order| ==> order[i] in table
      invariant destination.table == Copied(old(destination.table), table, order)
    {
      var key :| key in pending;
      pending := pending - {key};
      AddValues(destination, key, table[key]);
      assert (order + [key])[..|order|] == order;
      order := order + [key];
    }
    assert Enumerates(order, table.Keys);
  }

  method CopyHeaders(destination: Header, source: Table)
    modifies destination
    ensures exists order ::
            Enumerates(order, EndToEnd(source).Keys)
            && destination.table == Copied(old(destination.table), EndToEnd(source), order)
    ensures AllCanonical(source) ==> destination.table == Merged(old(destination.table), EndToEnd(source))
    ensures AllCanonical(source) ==> forall key ::
              ValuesAt(destination.table, key)
              == ValuesAt(old(destination.table), key) + ValuesAt(EndToEnd(source), key)
  {
    var cleaned := new Header(source);
    cleaned.RemoveHopByHop();
    CopyTable(destination, cleaned.table);
    if AllCanonical(source) {
      var order :| Enumerates(order, cleaned.table.Keys)
                   && destination.table == Copied(old(destination.table), cleaned.table, order);
      CopyIgnoresOrder(old(destination.table), cleaned.table, order);
    }
  }
}
