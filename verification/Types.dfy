/** Transactions, accounts and the machine integers shared by the pool and the chain. */
module Types {

  const TWO_64: int := 0x1_0000_0000_0000_0000
  const MAX_UINT64: int := TWO_64 - 1

  type uint64 = x: int | 0 <= x < 0x1_0000_0000_0000_0000
  type byte = x: int | 0 <= x < 256

  /** Addition of two uint64 values as the machine performs it. */
  function AddWrap(x: uint64, y: uint64): (z: uint64)
    ensures z == x + y || z == x + y - TWO_64
  {
    if x + y < TWO_64 then x + y else x + y - TWO_64
  }

  /** The value of a uint64 reinterpreted as an int64. */
  function ToInt64(x: int): int
    requires 0 <= x < TWO_64
  {
    if x < TWO_64 / 2 then x else x - TWO_64
  }

  function Min(x: int, y: int): (z: int)
    ensures z <= x && z <= y && (z == x || z == y)
  {
    if x <= y then x else y
  }

  function Max(x: int, y: int): (z: int)
    ensures x <= z && y <= z && (z == x || z == y)
  {
    if x <= y then y else x
  }

  datatype Option<+T> = None | Some(value: T)

  datatype Address = Address(id: nat)

  /** A transaction. `signed` says whether a sender can be recovered from the signature;
      if so it is `sender`. `size` stands for the length of the RLP encoding. */
  datatype Tx = Tx(sender: Address, signed: bool, nonce: uint64, gasPrice: nat, gas: uint64,
                   value: int, to: Option<Address>, data: seq<byte>, size: nat)
  {
    function Cost(): int {
      gasPrice * gas + value
    }

    /** The transaction hash, an injective identifier. */
    function Hash(): TxHash {
      TxHash(this)
    }
  }

  datatype TxHash = TxHash(content: Tx)
}
