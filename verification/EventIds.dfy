/** Fresh event ids: a content-addressed prefix and a bump, raised until it is free. */
module EventIds {
  import opened Text

  function HexLower(d: nat): (c: char)
    requires d < 16
  {
    if d < 10 then DigitChar(d) else ('a' as int + d - 10) as char
  }

  function HexDigit(c: char): int {
    if c < 'a' then c as int - '0' as int else c as int - 'a' as int + 10
  }

  function HexText(n: nat): (s: string)
    ensures s != ""
  {
    if n < 16 then [HexLower(n)] else HexText(n / 16) + [HexLower(n % 16)]
  }

  function HexNumber(s: string): int {
    if s == "" then 0 else HexNumber(s[..|s| - 1]) * 16 + HexDigit(s[|s| - 1])
  }

  lemma {:induction false} HexReadsBack(n: nat)
    ensures HexNumber(HexText(n)) == n
  {
    var s := HexText(n);
    if n >= 16 {
      HexReadsBack(n / 16);
      assert s[..|s| - 1] == HexText(n / 16);
    } else {
      assert s[..|s| - 1] == "";
    }
  }

  /** The id tried at one bump. */
  function Candidate(nonce: nat, bump: nat): string {
    "evt-" + PadLeft(HexText(nonce), 16) + "-" + HexText(bump)
  }

  lemma {:induction false} DifferentBumps(nonce: nat, a: nat, b: nat)
    requires a != b
    ensures Candidate(nonce, a) != Candidate(nonce, b)
  {
    var head := "evt-" + PadLeft(HexText(nonce), 16) + "-";
    HexReadsBack(a);
    HexReadsBack(b);
    assert Candidate(nonce, a)[|head|..] == HexText(a);
    assert Candidate(nonce, b)[|head|..] == HexText(b);
  }

  /** A ledger id never equals a tax id. */
  lemma {:induction false} LedgerIdsAreNotTaxIds(nonce: nat, bump: nat, hash: string)
    ensures Candidate(nonce, bump) != "tax-" + hash
  {
    assert Candidate(nonce, bump)[0] == 'e';
  }

  /** The first bump whose id is free; found after at most as many bumps as there are ids. */
  method AssignEventId(existing: set<string>, nonce: nat) returns (id: string, bumps: nat)
    ensures id !in existing && id == Candidate(nonce, bumps)
    ensures forall b: nat :: b < bumps ==> Candidate(nonce, b) in existing
    ensures bumps <= |existing|
  {
    bumps := 0;
    ghost var tried: set<string> := {};
    while true
      invariant TriedFirst(existing, nonce, tried, bumps)
      decreases |existing| - bumps
    {
      id := Candidate(nonce, bumps);
      if id !in existing { return; }
      TryNext(existing, nonce, tried, bumps);
      tried := tried + {id};
      bumps := bumps + 1;
    }
  }

  /** The candidates of the bumps so far, each of them taken. */
  ghost predicate TriedFirst(existing: set<string>, nonce: nat, tried: set<string>, bumps: nat) {
    && tried <= existing && |tried| == bumps <= |existing|
    && (forall x :: x in tried ==> exists b: nat :: b < bumps && x == Candidate(nonce, b))
    && (forall b: nat :: b < bumps ==> Candidate(nonce, b) in existing)
  }

  lemma TryNext(existing: set<string>, nonce: nat, tried: set<string>, bumps: nat)
    requires TriedFirst(existing, nonce, tried, bumps) && Candidate(nonce, bumps) in existing
    ensures TriedFirst(existing, nonce, tried + {Candidate(nonce, bumps)}, bumps + 1)
  {
    NewCandidate(nonce, tried, bumps);
    SubsetSize(tried + {Candidate(nonce, bumps)}, existing);
  }

  lemma NewCandidate(nonce: nat, tried: set<string>, bumps: nat)
    requires forall x :: x in tried ==> exists b: nat :: b < bumps && x == Candidate(nonce, b)
    ensures Candidate(nonce, bumps) !in tried
  {
    if Candidate(nonce, bumps) in tried {
      var b: nat :| b < bumps && Candidate(nonce, bumps) == Candidate(nonce, b);
      DifferentBumps(nonce, b, bumps);
    }
  }

  lemma {:induction false} SubsetSize(s: set<string>, t: set<string>)
    requires s <= t
    ensures |s| <= |t|
  {
    if s != {} {
      var x :| x in s;
      SubsetSize(s - {x}, t - {x});
    }
  }
}
