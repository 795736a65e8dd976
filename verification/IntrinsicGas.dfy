/** The gas a message pays before execution, in 64-bit arithmetic. */
module IntrinsicGas {
  import opened Transactions

  const TX_GAS: nat := 21000
  const TX_GAS_CONTRACT_CREATION: nat := 53000
  const TX_DATA_ZERO_GAS: nat := 4
  const TX_DATA_NON_ZERO_GAS: nat := 68

  function NonZeros(data: seq<byte>): (n: nat)
    ensures n <= |data|
  {
    if data == [] then 0 else NonZeros(data[..|data| - 1]) + (if data[|data| - 1] != 0 then 1 else 0)
  }

  /** The intrinsic gas as an unbounded sum. */
  function IntrinsicSum(data: seq<byte>, create: bool, homestead: bool): nat {
    (if create && homestead then TX_GAS_CONTRACT_CREATION else TX_GAS)
    + NonZeros(data) * TX_DATA_NON_ZERO_GAS
    + (|data| - NonZeros(data)) * TX_DATA_ZERO_GAS
  }

  /** Fails exactly when the sum does not fit in 64 bits. */
  method IntrinsicGas(data: Data, create: bool, homestead: bool) returns (r: Option<uint64>)
    ensures r == if IntrinsicSum(data, create, homestead) <= MAX_UINT64
                 then Some(IntrinsicSum(data, create, homestead)) else None
  {
    var gas: uint64 := if create && homestead then TX_GAS_CONTRACT_CREATION else TX_GAS;
    if |data| > 0 {
      var nz: uint64 := 0;
      for i := 0 to |data|
        invariant nz == NonZeros(data[..i])
      {
        assert data[..i + 1][..i] == data[..i];
        if data[i] != 0 {
          nz := nz + 1;
        }
      }
      assert data[..|data|] == data;
      if (MAX_UINT64 - gas) / TX_DATA_NON_ZERO_GAS < nz {
        return None;
      }
      gas := gas + nz * TX_DATA_NON_ZERO_GAS;
      var z: uint64 := |data| - nz;
      if (MAX_UINT64 - gas) / TX_DATA_ZERO_GAS < z {
        return None;
      }
      gas := gas + z * TX_DATA_ZERO_GAS;
    }
    r := Some(gas);
  }
}
