/**
 Deterministic chunk ids, `{doc}-{seq:04}-{hash}`, and the two synthetic ids of the ingestion
 pipeline.  The hash is any 8 lower-case hexadecimal characters.
 */
module ChunkIds {

  function Digit(d: nat): char
    requires d < 10
  {
    "0123456789"[d]
  }

  function Decimal(n: nat): (s: string)
    ensures |s| > 0
  {
    if n < 10 then [Digit(n)] else Decimal(n / 10) + [Digit(n % 10)]
  }

  function Zeros(k: nat): (s: string)
    ensures |s| == k
  {
    seq(k, _ => '0')
  }

  /** `{n:04}`: at least four digits. */
  function Pad4(n: nat): string {
    var s := Decimal(n);
    if |s| < 4 then Zeros(4 - |s|) + s else s
  }

  predicate IsHexChar(c: char) {
    '0' <= c <= '9' || 'a' <= c <= 'f'
  }

  predicate IsHash(hash: string) {
    |hash| == 8 && forall i | 0 <= i < |hash| :: IsHexChar(hash[i])
  }

  function MakeChunkId(docId: string, sequence: nat, hash: string): string {
    docId + "-" + Pad4(sequence) + "-" + hash
  }

  /** The id of the one synthetic chunk of a document that is not chunked. */
  function FullId(docId: string): string {
    docId + "__full"
  }

  /** The id under which a document's title is indexed. */
  function TitleId(docId: string): string {
    docId + "__title"
  }

  /** Reading a decimal back. */
  function Value(s: string): nat {
    if s == [] then 0
    else 10 * Value(s[..|s| - 1]) + if '0' <= s[|s| - 1] <= '9' then s[|s| - 1] as nat - '0' as nat else 0
  }

  predicate NoDash(s: string) {
    forall i | 0 <= i < |s| :: s[i] != '-'
  }

  lemma {:induction false} DecimalReadsBack(n: nat)
    ensures Value(Decimal(n)) == n && NoDash(Decimal(n))
  {
    if n >= 10 {
      DecimalReadsBack(n / 10);
      assert Decimal(n)[..|Decimal(n)| - 1] == Decimal(n / 10);
    } else {
      assert Decimal(n)[..0] == [];
    }
  }

  lemma {:induction false} LeadingZeros(k: nat, s: string)
    ensures Value(Zeros(k) + s) == Value(s)
    decreases |s|, k
  {
    if s != [] {
      assert (Zeros(k) + s)[..k + |s| - 1] == Zeros(k) + s[..|s| - 1];
      LeadingZeros(k, s[..|s| - 1]);
    } else if k > 0 {
      assert (Zeros(k) + s)[..k - 1] == Zeros(k - 1) + s;
      LeadingZeros(k - 1, s);
    }
  }

  lemma Pad4ReadsBack(n: nat)
    ensures Value(Pad4(n)) == n && NoDash(Pad4(n))
  {
    DecimalReadsBack(n);
    LeadingZeros(4 - if |Decimal(n)| < 4 then |Decimal(n)| else 4, Decimal(n));
  }

  /** Decimal digits with the value `n`: four at least, and no zero in front of more than four. */
  ghost predicate IsPadded(digits: string, n: nat) {
    && |digits| >= 4 && Value(digits) == n
    && (forall i | 0 <= i < |digits| :: '0' <= digits[i] <= '9')
    && (|digits| > 4 ==> digits[0] != '0')
  }

  lemma {:induction false} DecimalDigits(n: nat)
    ensures forall i | 0 <= i < |Decimal(n)| :: '0' <= Decimal(n)[i] <= '9'
    ensures n > 0 ==> Decimal(n)[0] != '0'
  {
    if n >= 10 {
      DecimalDigits(n / 10);
      assert Decimal(n)[0] == Decimal(n / 10)[0];
    }
  }

  /** The parts of a chunk id: the document, a dash, the padded sequence number, a dash, the hash. */
  lemma ChunkIdParts(docId: string, sequence: nat, hash: string)
    ensures exists digits ::
              IsPadded(digits, sequence) && MakeChunkId(docId, sequence, hash) == docId + "-" + digits + "-" + hash
  {
    Pad4ReadsBack(sequence);
    DecimalDigits(sequence);
    assert IsPadded(Pad4(sequence), sequence);
  }

  /** The last dash of a string is where it is. */
  lemma LastDashSplits(a: string, p: string, b: string, q: string)
    requires a + "-" + p == b + "-" + q && NoDash(p) && NoDash(q)
    ensures a == b && p == q
  {
    var whole := a + "-" + p;
    assert whole[|a|] == '-' && whole[|b|] == '-';
    forall i | |a| < i < |whole| ensures whole[i] != '-' {
      assert whole[i] == p[i - |a| - 1];
    }
    forall i | |b| < i < |whole| ensures whole[i] != '-' {
      assert whole[i] == q[i - |b| - 1];
    }
    assert |a| == |b|;
    assert whole[..|a|] == a && whole[..|b|] == b;
    assert whole[|a| + 1..] == p && whole[|b| + 1..] == q;
  }

  /** No two chunks share an id: document, sequence number and hash can all be read back. */
  lemma ChunkIdIsInjective(doc: string, n: nat, hash: string, doc': string, n': nat, hash': string)
    requires IsHash(hash) && IsHash(hash')
    ensures MakeChunkId(doc, n, hash) == MakeChunkId(doc', n', hash') <==> doc == doc' && n == n' && hash == hash'
  {
    if MakeChunkId(doc, n, hash) == MakeChunkId(doc', n', hash') {
      Pad4ReadsBack(n);
      Pad4ReadsBack(n');
      assert NoDash(hash) && NoDash(hash');
      LastDashSplits(doc + "-" + Pad4(n), hash, doc' + "-" + Pad4(n'), hash');
      LastDashSplits(doc, Pad4(n), doc', Pad4(n'));
    }
  }

  /** Chunk ids, full-text ids and title ids never collide, whatever the documents are called. */
  lemma IdKindsAreDisjoint(doc: string, n: nat, hash: string, doc': string, doc'': string)
    requires IsHash(hash)
    ensures MakeChunkId(doc, n, hash) != FullId(doc')
    ensures MakeChunkId(doc, n, hash) != TitleId(doc')
    ensures FullId(doc) != TitleId(doc')
    ensures FullId(doc') == FullId(doc'') ==> doc' == doc''
    ensures TitleId(doc') == TitleId(doc'') ==> doc' == doc''
  {
    var id := MakeChunkId(doc, n, hash);
    assert forall i | 0 <= i < 8 :: id[|id| - 8 + i] == hash[i];
    assert id[|id| - 1] == hash[7];
    assert FullId(doc')[|FullId(doc')| - 1] == 'l' && TitleId(doc')[|TitleId(doc')| - 3] == 't';
    assert id[|id| - 3] == hash[5];
    assert FullId(doc)[|FullId(doc)| - 1] == 'l' && TitleId(doc')[|TitleId(doc')| - 1] == 'e';
    assert FullId(doc')[..|doc'|] == doc' && FullId(doc'')[..|doc''|] == doc'';
    assert TitleId(doc')[..|doc'|] == doc' && TitleId(doc'')[..|doc''|] == doc'';
    if FullId(doc') == FullId(doc'') {
      assert |doc'| == |doc''|;
    }
  }
}
