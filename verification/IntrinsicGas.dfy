/** The gas a transaction costs before anything is executed. */
module IntrinsicGases {
  import opened Types

  const TX_GAS: nat := 21000
  const TX_GAS_CONTRACT_CREATION: nat := 53000
  const TX_DATA_ZERO_GAS: nat := 4
  const TX_DATA_NON_ZERO_GAS: nat := 68

  /** The price of the payload, byte by byte, on unbounded numbers. */
  function DataGas(data: seq<byte>): nat {
    if data == [] then 0
    else DataGas(data[..|data| - 1]) + if data[|data| - 1] == 0 then TX_DATA_ZERO_GAS else TX_DATA_NON_ZERO_GAS
  }

  /** A zero byte costs 4, any other 68, wherever they stand. */
  lemma {:induction false} DataGasByKind(data: seq<byte>)
    ensures DataGas(data) == 4 * multiset(data)[0] + 68 * (|data| - multiset(data)[0])
  {
    if data != [] {
      DataGasByKind(data[..|data| - 1]);
      assert data == data[..|data| - 1] + [data[|data| - 1]];
    }
  }

  /** All that is charged for before anything is executed. */
  function ExactGas(data: seq<byte>, create: bool, homestead: bool): nat {
    (if create && homestead then TX_GAS_CONTRACT_CREATION else TX_GAS) + DataGas(data)
  }

  /** The intrinsic gas, or nothing if it does not fit into a uint64. */
  function Intrinsic(data: seq<byte>, create: bool, homestead: bool): Option<uint64> {
    var gas := ExactGas(data, create, homestead);
    if gas < TWO_64 then Some(gas) else None
  }

  /** Counts the non-zero bytes and prices the two kinds in bulk, guarding every step against
      overflow; the outcome is that of pricing byte by byte without bounds. */
  method IntrinsicGas(data: seq<byte>, create: bool, homestead: bool) returns (r: Option<uint64>)
    requires |data| < TWO_64
    ensures r == Intrinsic(data, create, homestead)
    ensures var zeros := multiset(data)[0];
      var total := (if create && homestead then 53000 else 21000) + 4 * zeros + 68 * (|data| - zeros);
      r == if total <= 0xffff_ffff_ffff_ffff then Some(total) else None
  {
    DataGasByKind(data);
    var gas: uint64 := if create && homestead then TX_GAS_CONTRACT_CREATION else TX_GAS;
    if |data| > 0 {
      var nz: uint64 := 0;
      for i := 0 to |data|
        invariant nz <= i && DataGas(data[..i]) == nz * TX_DATA_NON_ZERO_GAS + (i - nz) * TX_DATA_ZERO_GAS
      {
        assert data[..i + 1][..i] == data[..i];
        if data[i] != 0 {
          nz := nz + 1;
        }
      }
      assert data[..|data|] == data;
      if (MAX_UINT64 - gas) / TX_DATA_NON_ZERO_GAS < nz {
        return None;
      }
      gas := gas + nz * TX_DATA_NON_ZERO_GAS;
      var z: uint64 := |data| - nz;
      if (MAX_UINT64 - gas) / TX_DATA_ZERO_GAS < z {
        return None;
      }
      gas := gas + z * TX_DATA_ZERO_GAS;
    }
    return Some(gas);
  }
}
