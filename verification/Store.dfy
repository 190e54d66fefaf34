/** The durable tables: internal/store/store.go. Every method here is one database transaction;
    the single connection makes transactions atomic with respect to each other. */
module Store {
  import opened Wrappers
  import opened Names

  type Owners = map<string, string>   // domain -> token hash
  type Tokens = map<string, string>   // client token id -> token hash

  /** The reservation table after `hash` asks for `domain`; None when another token owns it. */
  function Granted(owners: Owners, domain: string, hash: string): Option<Owners> {
    if domain in owners && owners[domain] != hash then None else Some(owners[domain := hash])
  }

  ghost predicate UniqueHashes(tokens: Tokens) {
    forall i, j :: i in tokens && j in tokens && tokens[i] == tokens[j] ==> i == j
  }

  newtype byte = x: int | 0 <= x < 256

  const ADJECTIVES := ["amber", "brisk", "calm", "clever", "cosmic", "gentle", "lucky", "mighty",
                       "polar", "rapid", "silver", "steady"]
  const ANIMALS := ["badger", "falcon", "fox", "koala", "lynx", "otter", "panda", "raven", "tiger",
                    "whale", "wolf", "yak"]
  const HEX := "0123456789abcdef"
  const ATTEMPTS := 32

  function Hex4(n: nat): (s: string)
    requires n < 65536
    ensures |s| == 4 && AllLabelChars(s) && '-' !in s
  {
    assert forall i :: 0 <= i < 16 ==> IsLabelChar(HEX[i]) && HEX[i] != '-';
    [HEX[n / 4096], HEX[n / 256 % 16], HEX[n / 16 % 16], HEX[n % 16]]
  }

  function NameOf(adjective: nat, animal: nat, tail: nat): string
    requires adjective < |ADJECTIVES| && animal < |ANIMALS| && tail < 65536
  {
    ADJECTIVES[adjective] + "-" + ANIMALS[animal] + "-" + Hex4(tail)
  }

  /** The name drawn from four random bytes. */
  function Candidate(b: (byte, byte, byte, byte)): string {
    NameOf(b.0 as int % |ADJECTIVES|, b.1 as int % |ANIMALS|, b.2 as int * 256 + b.3 as int)
  }

  predicate IsWord(w: string) {
    3 <= |w| <= 6 && AllLabelChars(w) && w[0] != '-'
  }

  lemma AdjectivesAreWords(i: nat)
    requires i < |ADJECTIVES|
    ensures IsWord(ADJECTIVES[i])
  {
  }

  lemma AnimalsAreWords(i: nat)
    requires i < |ANIMALS|
    ensures IsWord(ANIMALS[i])
  {
  }

  lemma ThreePartsAreName(adjective: string, animal: string, tail: string)
    requires IsWord(adjective) && IsWord(animal) && |tail| == 4 && AllLabelChars(tail) && '-' !in tail
    ensures IsName(adjective + "-" + animal + "-" + tail)
  {
    var name := adjective + "-" + animal + "-" + tail;
    assert name[0] == adjective[0] && name[|name| - 1] == tail[3] && |name| > 6;
  }

  /** Every draw is a name, so an allocated domain passes `Normalize` unchanged when a client asks for it again. */
  lemma CandidateIsName(b: (byte, byte, byte, byte))
    ensures IsName(Candidate(b))
  {
    var i, j := b.0 as int % |ADJECTIVES|, b.1 as int % |ANIMALS|;
    AdjectivesAreWords(i);
    AnimalsAreWords(j);
    ThreePartsAreName(ADJECTIVES[i], ANIMALS[j], Hex4(b.2 as int * 256 + b.3 as int));
  }

  // ---------------------------------------------------------------- which names are drawn

  function HexDigit(c: char): int {
    if c <= '9' then c as int - '0' as int else c as int - 'a' as int + 10
  }

  function Read4(s: string): int
    requires |s| == 4
  {
    4096 * HexDigit(s[0]) + 256 * HexDigit(s[1]) + 16 * HexDigit(s[2]) + HexDigit(s[3])
  }

  lemma HexDigits(i: nat)
    requires i < 16
    ensures HexDigit(HEX[i]) == i
  {
  }

  /** The four digits are those of the number. */
  lemma Hex4Reads(n: nat)
    requires n < 65536
    ensures Read4(Hex4(n)) == n
  {
    Nibbles(n);
    Hex4Digits(n);
  }

  lemma Nibbles(n: nat)
    ensures 4096 * (n / 4096) + 256 * (n / 256 % 16) + 16 * (n / 16 % 16) + n % 16 == n
  {
    var a := n / 16;
    var b := a / 16;
    assert n / 256 == b && n / 4096 == b / 16;
    assert n == 16 * a + n % 16 && a == 16 * b + a % 16 && b == 16 * (b / 16) + b % 16;
  }

  lemma Hex4Digits(n: nat)
    requires n < 65536
    ensures var s := Hex4(n);
            && HexDigit(s[0]) == n / 4096 && HexDigit(s[1]) == n / 256 % 16
            && HexDigit(s[2]) == n / 16 % 16 && HexDigit(s[3]) == n % 16
  {
    HexDigits(n / 4096);
    HexDigits(n / 256 % 16);
    HexDigits(n / 16 % 16);
    HexDigits(n % 16);
  }

  /** The words stand in alphabetical order of their first two letters. */
  function Rank(w: string): int
    requires |w| >= 2
  {
    w[0] as int * 1000 + w[1] as int
  }

  lemma AdjectivesOrdered(i: nat)
    requires i + 1 < |ADJECTIVES|
    ensures |ADJECTIVES[i]| >= 2 && |ADJECTIVES[i + 1]| >= 2 && Rank(ADJECTIVES[i]) < Rank(ADJECTIVES[i + 1])
  {
  }

  lemma AnimalsOrdered(i: nat)
    requires i + 1 < |ANIMALS|
    ensures |ANIMALS[i]| >= 2 && |ANIMALS[i + 1]| >= 2 && Rank(ANIMALS[i]) < Rank(ANIMALS[i + 1])
  {
  }

  lemma {:induction false} AdjectivesDiffer(i: nat, j: nat)
    requires i < j < |ADJECTIVES|
    ensures |ADJECTIVES[i]| >= 2 && |ADJECTIVES[j]| >= 2 && Rank(ADJECTIVES[i]) < Rank(ADJECTIVES[j])
  {
    AdjectivesOrdered(j - 1);
    if i < j - 1 {
      AdjectivesDiffer(i, j - 1);
    }
  }

  lemma {:induction false} AnimalsDiffer(i: nat, j: nat)
    requires i < j < |ANIMALS|
    ensures |ANIMALS[i]| >= 2 && |ANIMALS[j]| >= 2 && Rank(ANIMALS[i]) < Rank(ANIMALS[j])
  {
    AnimalsOrdered(j - 1);
    if i < j - 1 {
      AnimalsDiffer(i, j - 1);
    }
  }

  /** The words of both lists have no hyphen. */
  predicate NoHyphen(w: string) { '-' !in w }

  lemma WordsHaveNoHyphen(i: nat)
    requires i < 12
    ensures |ADJECTIVES| == |ANIMALS| == 12 && NoHyphen(ADJECTIVES[i]) && NoHyphen(ANIMALS[i])
  {
  }

  lemma PartsAreUnique(a: string, b: string, tail: string, c: string, d: string, other: string)
    requires NoHyphen(a) && NoHyphen(b) && NoHyphen(c) && NoHyphen(d)
    requires a + "-" + b + "-" + tail == c + "-" + d + "-" + other
    ensures a == c && b == d && tail == other
  {
    assert a + "-" + b + "-" + tail == a + "-" + (b + "-" + tail);
    assert c + "-" + d + "-" + other == c + "-" + (d + "-" + other);
    FirstPart(a, b + "-" + tail, c, d + "-" + other);
    FirstPart(b, tail, d, other);
  }

  lemma FirstPart(a: string, rest: string, c: string, other: string)
    requires NoHyphen(a) && NoHyphen(c) && a + "-" + rest == c + "-" + other
    ensures a == c && rest == other
  {
    var s := a + "-" + rest;
    assert s[..|a|] == a && s[|a|] == '-' && s[..|c|] == c && s[|c|] == '-';
    assert s[|a| + 1..] == rest && s[|c| + 1..] == other;
  }

  lemma ListSizes()
    ensures |ADJECTIVES| == |ANIMALS| == 12
  {
  }

  lemma NamesDiffer(i: nat, j: nat, m: nat, k: nat, l: nat, n: nat)
    requires i < |ADJECTIVES| && k < |ADJECTIVES| && j < |ANIMALS| && l < |ANIMALS| && m < 65536 && n < 65536
    requires NameOf(i, j, m) == NameOf(k, l, n)
    ensures i == k && j == l && m == n
  {
    WordsHaveNoHyphen(i);
    WordsHaveNoHyphen(j);
    WordsHaveNoHyphen(k);
    WordsHaveNoHyphen(l);
    PartsAreUnique(ADJECTIVES[i], ANIMALS[j], Hex4(m), ADJECTIVES[k], ANIMALS[l], Hex4(n));
    Hex4Reads(m);
    Hex4Reads(n);
    SameWords(i, k, j, l);
  }

  /** Two draws give the same name exactly if they agree on both words and on the last two bytes, so there are
      12 * 12 * 65536 names. */
  lemma DrawsDiffer(b: (byte, byte, byte, byte), c: (byte, byte, byte, byte))
    ensures Candidate(b) == Candidate(c) <==>
            b.0 as int % 12 == c.0 as int % 12 && b.1 as int % 12 == c.1 as int % 12 && b.2 == c.2 && b.3 == c.3
  {
    CandidateIs(b);
    CandidateIs(c);
    var m, n := Tail(b), Tail(c);
    if Candidate(b) == Candidate(c) {
      NamesDiffer(b.0 as int % 12, b.1 as int % 12, m, c.0 as int % 12, c.1 as int % 12, n);
    }
    TailsDiffer(b, c);
  }

  function Tail(b: (byte, byte, byte, byte)): (n: nat)
    ensures n < 65536
  {
    b.2 as int * 256 + b.3 as int
  }

  lemma TailsDiffer(b: (byte, byte, byte, byte), c: (byte, byte, byte, byte))
    ensures Tail(b) == Tail(c) <==> b.2 == c.2 && b.3 == c.3
  {
  }

  lemma CandidateIs(b: (byte, byte, byte, byte))
    ensures |ADJECTIVES| == |ANIMALS| == 12
    ensures Candidate(b) == NameOf(b.0 as int % 12, b.1 as int % 12, Tail(b))
  {
    ListSizes();
  }

  lemma SameWords(i: nat, k: nat, j: nat, l: nat)
    requires i < 12 && k < 12 && j < 12 && l < 12 && |ADJECTIVES| == |ANIMALS| == 12
    requires ADJECTIVES[i] == ADJECTIVES[k] && ANIMALS[j] == ANIMALS[l]
    ensures i == k && j == l
  {
    if i < k { AdjectivesDiffer(i, k); }
    if k < i { AdjectivesDiffer(k, i); }
    if j < l { AnimalsDiffer(j, l); }
    if l < j { AnimalsDiffer(l, j); }
  }

  ghost predicate CanBeDrawn(name: string) {
    exists b :: Candidate(b) == name
  }

  lemma DrawnIsName(name: string)
    requires CanBeDrawn(name)
    ensures IsName(name)
  {
    var b :| Candidate(b) == name;
    CandidateIsName(b);
  }

  datatype Fault = NoFault | BeforeRead | AfterRead
  datatype StoreError = Taken | Conflict | NoRow | Database | Exhausted | Random

  /** What one round of `Allocate` meets: the random bytes (None when reading them failed) and the transaction's
      fault. */
  datatype Draw = Draw(bytes: Option<(byte, byte, byte, byte)>, fault: Fault)

  datatype Reservation = Reservation(tokenHash: string, createdAt: int, lastSeenAt: int)
  datatype TokenRow = TokenRow(
    title: string, tokenHash: string, prefix: string, createdAt: int, lastUsedAt: Option<int>)
  {
    function Used(hash: string, now: int): TokenRow {
      if tokenHash == hash then this.(lastUsedAt := Some(now)) else this
    }
  }

  class Store {
    var reservations: map<string, Reservation>
    var clientTokens: map<string, TokenRow>

    constructor ()
      ensures Valid() && reservations == map[] && clientTokens == map[]
    {
      reservations, clientTokens := map[], map[];
    }

    ghost function Owners(): (o: Owners)
      reads this
      ensures o.Keys == reservations.Keys
    {
      map d | d in reservations :: reservations[d].tokenHash
    }

    ghost function Tokens(): (t: Tokens)
      reads this
      ensures t.Keys == clientTokens.Keys
    {
      map id | id in clientTokens :: clientTokens[id].tokenHash
    }

    /** The UNIQUE constraint on token hashes. */
    ghost predicate Valid()
      reads this
    {
      UniqueHashes(Tokens())
    }

    method Reserve(domain: string, tokenHash: string, now: int, fault: Fault) returns (r: Result<(), StoreError>)
      modifies this`reservations
      ensures r.Ok? ==> Granted(old(Owners()), domain, tokenHash) == Some(Owners())
      ensures r.Ok? ==> domain in reservations && reservations == old(reservations)[domain := reservations[domain]]
      ensures r.Ok? ==> reservations[domain].lastSeenAt == now
      ensures r.Ok? && domain in old(reservations) ==>
                reservations[domain].createdAt == old(reservations)[domain].createdAt
      ensures r.Ok? && domain !in old(reservations) ==> reservations[domain].createdAt == now
      ensures r.Err? ==> reservations == old(reservations)
      ensures r == Err(Taken) <==> fault != BeforeRead && Granted(old(Owners()), domain, tokenHash).None?
      ensures r == Err(Database) <==>
                fault == BeforeRead || (fault == AfterRead && Granted(old(Owners()), domain, tokenHash).Some?)
      ensures r.Ok? || r == Err(Taken) || r == Err(Database)
    {
      if fault == BeforeRead {
        return Err(Database);
      }
      if domain !in reservations {
        if fault == AfterRead {
          return Err(Database);
        }
        reservations := reservations[domain := Reservation(tokenHash, now, now)];
      } else if reservations[domain].tokenHash != tokenHash {
        return Err(Taken);
      } else {
        if fault == AfterRead {
          return Err(Database);
        }
        reservations := reservations[domain := reservations[domain].(lastSeenAt := now)];
      }
      assert Owners() == old(Owners())[domain := tokenHash];
      r := Ok(());
    }

    /** One round of `Allocate`. */
    method TryDraw(tokenHash: string, now: int, draw: Draw) returns (r: Result<string, StoreError>)
      modifies this`reservations
      ensures r.Ok? ==>
                Draws(draw, r.value) && IsName(r.value) && Granted(old(Owners()), r.value, tokenHash) == Some(Owners())
      ensures r.Err? ==> reservations == old(reservations)
      ensures r == Err(Taken) <==> Refused(old(Owners()), tokenHash, draw)
      ensures r.Ok? <==> Succeeds(old(Owners()), tokenHash, draw)
      ensures r == Err(Random) <==> draw.bytes.None?
      ensures r != Err(Exhausted)
    {
      if draw.bytes.None? {
        return Err(Random);
      }
      CandidateIsName(draw.bytes.value);
      var domain := Candidate(draw.bytes.value);
      var reserved := Reserve(domain, tokenHash, now, draw.fault);
      r := if reserved.Ok? then Ok(domain) else Err(reserved.error);
    }

    /** Up to 32 independent transactions. A success is the first draw not owned by another token. */
    method Allocate(tokenHash: string, now: int, draws: seq<Draw>) returns (r: Result<string, StoreError>)
      requires |draws| == 32
      modifies this`reservations
      ensures r.Ok? ==> IsName(r.value) && Granted(old(Owners()), r.value, tokenHash) == Some(Owners())
      ensures r.Ok? ==> exists k :: 0 <= k < |draws| && Draws(draws[k], r.value)
                                    && forall i :: 0 <= i < k ==> Refused(old(Owners()), tokenHash, draws[i])
      ensures r.Ok? <==> CanAllocate(old(Owners()), tokenHash, draws)
      ensures r.Err? ==> reservations == old(reservations)
      ensures r == Err(Exhausted) <==> forall i :: 0 <= i < |draws| ==> Refused(old(Owners()), tokenHash, draws[i])
    {
      for attempt := 0 to ATTEMPTS
        invariant reservations == old(reservations)
        invariant forall i :: 0 <= i < attempt ==> Refused(old(Owners()), tokenHash, draws[i])
      {
        var drawn := TryDraw(tokenHash, now, draws[attempt]);
        if drawn != Err(Taken) {
          return drawn;
        }
      }
      r := Err(Exhausted);
    }

    /** Fails for a used id or hash, and when the database does. */
    method CreateClientToken(id: string, row: TokenRow, fails: bool) returns (r: Result<(), StoreError>)
      requires Valid()
      modifies this`clientTokens
      ensures Valid()
      ensures r == Err(Database) <==> fails
      ensures r.Ok? <==> !fails && id !in old(clientTokens) && row.tokenHash !in old(Tokens()).Values
      ensures clientTokens == if r.Ok? then old(clientTokens)[id := row] else old(clientTokens)
    {
      if fails {
        return Err(Database);
      }
      if id in clientTokens || exists i :: i in clientTokens && clientTokens[i].tokenHash == row.tokenHash {
        return Err(Conflict);
      }
      ghost var before := Tokens();
      clientTokens := clientTokens[id := row];
      assert Tokens() == before[id := row.tokenHash];
      r := Ok(());
    }

    /** Marks the matching row as used; the hash is accepted exactly when the table holds it. */
    method AuthenticateClientToken(tokenHash: string, now: int, fails: bool) returns (r: Result<bool, StoreError>)
      requires Valid()
      modifies this`clientTokens
      ensures Valid() && Tokens() == old(Tokens())
      ensures r == if fails then Err(Database) else Ok(tokenHash in Tokens().Values)
      ensures r.Err? ==> clientTokens == old(clientTokens)
      ensures r.Ok? ==> clientTokens.Keys == old(clientTokens).Keys
      ensures r.Ok? ==> forall id :: id in clientTokens ==>
                                       var row := old(clientTokens)[id];
                                       clientTokens[id]
                                       == if row.tokenHash == tokenHash then row.(lastUsedAt := Some(now)) else row
    {
      if fails {
        return Err(Database);
      }
      ghost var before := Tokens();
      var affected := MarkUsed(tokenHash, now);
      OneRowAffected(before, tokenHash, affected);
      r := Ok(|affected| == 1);
    }

    /** The UPDATE; returns the rows it affects. */
    method MarkUsed(tokenHash: string, now: int) returns (affected: set<string>)
      modifies this`clientTokens
      ensures Tokens() == old(Tokens()) && clientTokens.Keys == old(clientTokens).Keys
      ensures clientTokens == map id | id in old(clientTokens) :: old(clientTokens)[id].Used(tokenHash, now)
      ensures forall id :: id in affected <==> id in Tokens() && Tokens()[id] == tokenHash
    {
      affected := set id | id in clientTokens && clientTokens[id].tokenHash == tokenHash;
      ghost var before := Tokens();
      clientTokens := map id | id in clientTokens :: clientTokens[id].Used(tokenHash, now);
      assert Tokens() == before;
    }

    method DeleteClientToken(id: string, fails: bool) returns (r: Result<bool, StoreError>)
      requires Valid()
      modifies this`clientTokens
      ensures Valid()
      ensures r == if fails then Err(Database) else Ok(id in old(clientTokens))
      ensures clientTokens == if fails then old(clientTokens) else old(clientTokens) - {id}
    {
      if fails {
        return Err(Database);
      }
      r := Ok(id in clientTokens);
      ghost var before := Tokens();
      clientTokens := clientTokens - {id};
      assert Tokens() == before - {id};
    }

    method ClientTokenHash(id: string, fails: bool) returns (r: Result<string, StoreError>)
      ensures r == if fails then Err(Database) else if id in Tokens() then Ok(Tokens()[id]) else Err(NoRow)
    {
      if fails {
        return Err(Database);
      }
      r := if id in clientTokens then Ok(clientTokens[id].tokenHash) else Err(NoRow);
    }
  }

  /** An update by token hash affects one row or none. */
  lemma OneRowAffected(tokens: Tokens, hash: string, affected: set<string>)
    requires UniqueHashes(tokens) && forall id :: id in affected <==> id in tokens && tokens[id] == hash
    ensures |affected| == if hash in tokens.Values then 1 else 0
  {
    if id :| id in affected {
      assert forall other :: other in affected ==> other == id;
      assert affected == {id};
    } else {
      assert affected == {};
    }
  }

  ghost predicate Draws(draw: Draw, name: string) {
    draw.bytes.Some? && Candidate(draw.bytes.value) == name
  }

  /** The draw is made, the transaction meets no fault, and the name is free or the caller's. */
  ghost predicate Succeeds(owners: Owners, hash: string, draw: Draw) {
    draw.bytes.Some? && draw.fault == NoFault && Granted(owners, Candidate(draw.bytes.value), hash).Some?
  }

  /** Some draw succeeds and all before it are of names that other tokens own. */
  ghost predicate CanAllocate(owners: Owners, hash: string, draws: seq<Draw>) {
    exists k :: 0 <= k < |draws| && Succeeds(owners, hash, draws[k])
                && forall i :: 0 <= i < k ==> Refused(owners, hash, draws[i])
  }

  /** The draw was made, no read failed, and another token owns the name. */
  ghost predicate Refused(owners: Owners, hash: string, draw: Draw) {
    draw.bytes.Some? && draw.fault != BeforeRead && Granted(owners, Candidate(draw.bytes.value), hash).None?
  }

  /** Granting never removes a reservation and never changes an owner, and it adds at most the domain asked for. */
  lemma GrantingKeepsOwners(owners: Owners, domain: string, hash: string)
    ensures Granted(owners, domain, hash).Some? <==> domain !in owners || owners[domain] == hash
    ensures var g := Granted(owners, domain, hash);
            g.Some? ==>
                owners.Items <= g.value.Items && g.value.Keys == owners.Keys + {domain} && g.value[domain] == hash
  {
    var g := Granted(owners, domain, hash);
    if g.Some? {
      forall item | item in owners.Items
        ensures item in g.value.Items
      {
        assert item.0 in owners && owners[item.0] == item.1;
        assert g.value[item.0] == item.1;
      }
    }
  }

  /** Deleting the row of a hash leaves no row with that hash. */
  lemma DeleteRemovesHash(tokens: Tokens, id: string)
    requires UniqueHashes(tokens) && id in tokens
    ensures tokens[id] !in (tokens - {id}).Values && UniqueHashes(tokens - {id})
  {
  }
}
