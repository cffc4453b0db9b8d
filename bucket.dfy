/** A bucket definition (Bucket.cs): an immutable value fixed by its constructor. */
module Buckets {

  /** C#'s `ushort`. */
  newtype UInt16 = x: int | 0 <= x < 0x1_0000

  /**
   * The constructor's optional arguments keep their C# defaults; every property is
   * get-only, so a datatype value captures that a bucket never changes.
   */
  datatype Bucket = Bucket(
    name: string,
    flushEnabled: bool := false,
    primaryIndexEnabled: bool := true,
    quotaMiB: UInt16 := 100,
    replicaNumber: UInt16 := 0)

  /** Omitted arguments take the defaults; the name is kept unchanged. */
  lemma OmittedArgumentsTakeDefaults(name: string)
    ensures Bucket(name).name == name
    ensures !Bucket(name).flushEnabled && Bucket(name).primaryIndexEnabled
    ensures Bucket(name).quotaMiB == 100 && Bucket(name).replicaNumber == 0
  {
  }

  /** Supplied arguments are stored as given; the two counts are unsigned 16-bit. */
  lemma SuppliedArgumentsAreStored(name: string, flush: bool, primaryIndex: bool, quota: UInt16, replicas: UInt16)
    ensures var b := Bucket(name, flush, primaryIndex, quota, replicas);
      b.name == name && b.flushEnabled == flush && b.primaryIndexEnabled == primaryIndex
      && b.quotaMiB == quota && b.replicaNumber == replicas
      && 0 <= b.quotaMiB as int <= 65535 && 0 <= b.replicaNumber as int <= 65535
  {
  }
}
