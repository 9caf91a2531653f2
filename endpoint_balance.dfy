/** The balance endpoint's input parameters and its custom input validation:
    ordered first-failure checks that reject a request with status 400. */
module EndpointBalance {
  import opened Wrappers
  import opened Errors
  import opened Text

  /** One entry of the `addresses` parameter; `blockHeight` is optional. */
  datatype AddressInfo = AddressInfo(address: string, blockHeight: Option<int>)

  /** `Number.MAX_SAFE_INTEGER`, 2^53 - 1. */
  const MaxSafeInteger: int := 9007199254740991

  const EmptyAddressesMessage: string := "Input, at 'addresses', must be a non-empty array of objects."

  function InvalidAddressMessage(address: string): string {
    "Invalid Ethereum address: " + address
  }

  function InvalidBlockHeightMessage(address: string, height: int): string {
    "Invalid blockHeight for address " + address + ": " + IntToString(height) + ". It must be a non-negative integer."
  }

  /** An absent block height, or one between 0 and `MaxSafeInteger`. */
  predicate BlockHeightAccepted(h: Option<int>) {
    h.None? || 0 <= h.value <= MaxSafeInteger
  }

  /** The checks on one entry, address first; `isAddress` stands for
      `ethers.utils.isAddress`, which the model leaves uninterpreted. */
  function EntryError(a: AddressInfo, isAddress: string -> bool): (r: Option<AdapterError>)
    ensures r.None? <==> isAddress(a.address) && BlockHeightAccepted(a.blockHeight)
    ensures !isAddress(a.address) ==> r == Some(AdapterInputError(400, InvalidAddressMessage(a.address)))
    ensures isAddress(a.address) && !BlockHeightAccepted(a.blockHeight) ==>
      r == Some(AdapterInputError(400, InvalidBlockHeightMessage(a.address, a.blockHeight.value)))
  {
    if !isAddress(a.address) then
      Some(AdapterInputError(400, InvalidAddressMessage(a.address)))
    else if a.blockHeight.Some? && (a.blockHeight.value < 0 || a.blockHeight.value > MaxSafeInteger) then
      Some(AdapterInputError(400, InvalidBlockHeightMessage(a.address, a.blockHeight.value)))
    else
      None
  }

  /** The error of the first entry that fails, scanning in order. */
  function FirstEntryError(addresses: seq<AddressInfo>, isAddress: string -> bool): (r: Option<AdapterError>)
    ensures r.None? <==> forall i :: 0 <= i < |addresses| ==> EntryError(addresses[i], isAddress).None?
    ensures r.Some? ==> r.value.AdapterInputError? && r.value.statusCode == 400
  {
    if addresses == [] then None
    else if EntryError(addresses[0], isAddress).Some? then EntryError(addresses[0], isAddress)
    else FirstEntryError(addresses[1..], isAddress)
  }

  /** `customInputValidation`: an empty list is rejected first, then the first
      failing entry decides the error; a request that passes gets `undefined`. */
  function CustomInputValidation(addresses: seq<AddressInfo>, isAddress: string -> bool): (r: Option<AdapterError>)
    ensures addresses == [] ==> r == Some(AdapterInputError(400, EmptyAddressesMessage))
    ensures r.None? <==> addresses != [] && forall i :: 0 <= i < |addresses| ==>
      isAddress(addresses[i].address) && BlockHeightAccepted(addresses[i].blockHeight)
    ensures r.Some? ==> r.value.AdapterInputError? && r.value.statusCode == 400
  {
    if |addresses| == 0 then Some(AdapterInputError(400, EmptyAddressesMessage))
    else FirstEntryError(addresses, isAddress)
  }

  /** Entries are checked in order: when every entry before `i` passes and entry
      `i` fails, entry `i`'s error is the one reported, whatever follows it. */
  lemma {:induction false} FirstFailingEntryDecides(addresses: seq<AddressInfo>, isAddress: string -> bool, i: nat)
    requires i < |addresses|
    requires forall j :: 0 <= j < i ==> EntryError(addresses[j], isAddress).None?
    requires EntryError(addresses[i], isAddress).Some?
    ensures CustomInputValidation(addresses, isAddress) == EntryError(addresses[i], isAddress)
  {
    FirstEntryErrorAt(addresses, isAddress, i);
  }

  lemma {:induction false} FirstEntryErrorAt(addresses: seq<AddressInfo>, isAddress: string -> bool, i: nat)
    requires i < |addresses|
    requires forall j :: 0 <= j < i ==> EntryError(addresses[j], isAddress).None?
    requires EntryError(addresses[i], isAddress).Some?
    ensures FirstEntryError(addresses, isAddress) == EntryError(addresses[i], isAddress)
    decreases i
  {
    if i > 0 {
      assert EntryError(addresses[0], isAddress).None?;
      assert addresses[1..][i - 1] == addresses[i];
      forall j | 0 <= j < i - 1 ensures EntryError(addresses[1..][j], isAddress).None? {
        assert addresses[1..][j] == addresses[j + 1];
      }
      FirstEntryErrorAt(addresses[1..], isAddress, i - 1);
    }
  }

  /** An entry without a block height is rejected only for its address. */
  lemma AbsentBlockHeightNeverRejected(address: string, isAddress: string -> bool)
    ensures EntryError(AddressInfo(address, None), isAddress).None? <==> isAddress(address)
  {
  }

  /** The integration test's entry with block height -1 gets the exact message
      naming the address and the height. */
  lemma NegativeBlockHeightExample(isAddress: string -> bool)
    requires isAddress("0x103B66487784F6e3b4C5B2AcA92758198554C3e1")
    ensures CustomInputValidation([AddressInfo("0x103B66487784F6e3b4C5B2AcA92758198554C3e1", Some(-1))], isAddress)
      == Some(AdapterInputError(400, InvalidBlockHeightMessage("0x103B66487784F6e3b4C5B2AcA92758198554C3e1", -1)))
    ensures IntToString(-1) == "-1"
  {
    var address := "0x103B66487784F6e3b4C5B2AcA92758198554C3e1";
    var a := AddressInfo(address, Some(-1));
    assert !BlockHeightAccepted(a.blockHeight);
    assert FirstEntryError([a], isAddress) == EntryError(a, isAddress);
    assert IntToString(-1) == "-1";
  }
}
