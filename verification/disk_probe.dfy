/**
  Storage-path throughput probe (`measure_disk_encryption_speed`).

  The probe makes sure a test file exists under the configured path
  (writing the reference block into it when it is missing), reads the file
  back, and times one encryption of what it read. Any exception on that path
  is caught and turned into a rate of 0. The file system is an input: the
  state of the test file and whether writing and reading it succeed. The two
  clock readings around the single encryption are inputs too.
 */
module DiskProbe {

  import Benchmark

  type Byte = Benchmark.Byte

  datatype FileState = Missing | Present(contents: seq<Byte>)

  /** The test file under the configured path, and whether writing and reading it succeed. */
  datatype Storage = Storage(file: FileState, canWrite: bool, canRead: bool)

  datatype ReadResult = Data(bytes: seq<Byte>) | IOError

  /**
    Create-if-missing, then read. A missing file is first written with the
    reference block; a failed write or a failed read is an I/O error.
   */
  function ReadTestFile(s: Storage, block: seq<Byte>): (r: ReadResult)
    ensures r.Data? <==> s.canRead && (s.file.Present? || s.canWrite)
    ensures r.Data? && s.file.Present? ==> r.bytes == s.file.contents
    ensures r.Data? && s.file.Missing? ==> r.bytes == block
  {
    match s.file
    case Missing => if s.canWrite && s.canRead then Data(block) else IOError
    case Present(contents) => if s.canRead then Data(contents) else IOError
  }

  /**
    The probe's rate: bytes read over the time of one encryption. A failed
    create or read gives 0, and so does a zero duration, because the division
    then raises and the same handler returns 0.
   */
  function ProbeRate(s: Storage, block: seq<Byte>, encStart: real, encEnd: real): (r: real)
    ensures ReadTestFile(s, block).IOError? ==> r == 0.0
    ensures encEnd == encStart ==> r == 0.0
    ensures ReadTestFile(s, block).Data? && encEnd != encStart
            ==> r * (encEnd - encStart) == |ReadTestFile(s, block).bytes| as real
  {
    match ReadTestFile(s, block)
    case IOError => 0.0
    case Data(data) =>
      var duration := encEnd - encStart;
      if duration == 0.0 then 0.0
      else Benchmark.BitRate(|data|, duration)
  }

  /** An unwritable path without a test file reports 0. */
  lemma UnwritablePathGivesZero(block: seq<Byte>, canRead: bool, encStart: real, encEnd: real)
    ensures ProbeRate(Storage(Missing, false, canRead), block, encStart, encEnd) == 0.0
  {
  }

  /** A first probe on a writable, readable path encrypts exactly the reference block. */
  lemma FreshFileIsReferenceBlock(block: seq<Byte>, encStart: real, encEnd: real)
    requires encEnd != encStart
    ensures ProbeRate(Storage(Missing, true, true), block, encStart, encEnd)
            == |block| as real / (encEnd - encStart)
  {
  }

  /** With a clock that does not run backwards the probe never reports a negative rate. */
  lemma ProbeRateNonNegative(s: Storage, block: seq<Byte>, encStart: real, encEnd: real)
    requires encStart <= encEnd
    ensures ProbeRate(s, block, encStart, encEnd) >= 0.0
  {
    var r := ProbeRate(s, block, encStart, encEnd);
    if ReadTestFile(s, block).Data? && encEnd != encStart {
      assert r * (encEnd - encStart) >= 0.0;
    }
  }
}
