/**
 * The buffer test of the file-tailing relay: 128 decimal numbers flushed once
 * successfully and once with a failing send function, with chunk size 8.
 */
module FileStreamTests {
  import opened Wrappers
  import opened Bytes
  import FileStream

  /** `strconv.AppendInt([]byte{}, n, 10)` for a non-negative `n`: its ASCII decimal digits. */
  function Decimal(n: nat): (r: seq<byte>)
    ensures 1 <= |r|
    ensures Newline !in r
  {
    if n < 10 then [(48 + n) as byte] else Decimal(n / 10) + [(48 + n % 10) as byte]
  }

  /** The lines the test adds: the decimals of 0, 1, ..., n - 1. */
  function Numbers(n: nat): (r: seq<seq<byte>>)
    ensures |r| == n
  {
    seq(n, i requires 0 <= i => Decimal(i))
  }

  /** One, two or three digits below ten, a hundred and a thousand. */
  lemma DecimalLength(n: nat)
    requires n < 1000
    ensures |Decimal(n)| == if n < 10 then 1 else if n < 100 then 2 else 3
  {
  }

  /** Total digits of 0 .. n - 1 for n up to a thousand. */
  lemma {:induction false} NumbersLength(n: nat)
    requires n <= 1000
    ensures TotalLength(Numbers(n)) == if n <= 10 then n else if n <= 100 then 10 + 2 * (n - 10) else 190 + 3 * (n - 100)
  {
    if n > 0 {
      NumbersLength(n - 1);
      assert Numbers(n) == Numbers(n - 1) + [Decimal(n - 1)];
      TotalLengthSnoc(Numbers(n - 1), Decimal(n - 1));
      DecimalLength(n - 1);
    }
  }

  /** The body of one flush of 0 .. 127 is 274 digits and 127 newlines, and splits back into the 128 lines. */
  lemma Body128()
    ensures |Join(Numbers(128))| == 401
    ensures SplitLines(Join(Numbers(128))) == Numbers(128)
  {
    NumbersLength(128);
    JoinLength(Numbers(128));
    SplitJoin(Numbers(128));
  }

  /** The test's fill loop: adds the decimals of 0 .. 127 to a buffer holding nothing, with chunk size 8. */
  method AddNumbers(buf: FileStream.Buffer)
    requires buf.Valid() && buf.chunk == 8 && buf.ref == 0 && (|buf.data| == 0 || |buf.data| == 8)
    modifies buf
    ensures buf.Valid() && buf.Pending() == Numbers(128) && |buf.data| == 128
  {
    var i := 0;
    while i < 128
      invariant 0 <= i <= 128
      invariant buf.Valid() && buf.ref == i
      invariant buf.Pending() == Numbers(i)
      invariant |buf.data| % 8 == 0 && i <= |buf.data|
      invariant |buf.data| < i + 8 || |buf.data| == 8
    {
      buf.Add(Decimal(i));
      assert Numbers(i + 1) == Numbers(i) + [Decimal(i)];
      i := i + 1;
    }
  }

  /**
   * TestBuffer: both flushes send a 401-byte body; the successful one leaves
   * no storage behind, the failing one leaves all 128 slots in place.
   */
  method TestBuffer() returns (firstBody: seq<byte>, firstErr: Option<Error>, lenAfterSuccess: nat,
                               secondBody: seq<byte>, secondErr: Option<Error>, lenAfterFailure: nat)
    ensures |firstBody| == 401 && firstErr.None? && lenAfterSuccess == 0
    ensures |secondBody| == 401 && secondErr.Some? && lenAfterFailure == 128
  {
    var buf := new FileStream.Buffer(8);
    Body128();
    AddNumbers(buf);
    firstErr, firstBody := buf.Send(_ => None);
    lenAfterSuccess := |buf.data|;
    AddNumbers(buf);
    secondErr, secondBody := buf.Send(_ => Some(Error("error")));
    lenAfterFailure := |buf.data|;
  }
}
