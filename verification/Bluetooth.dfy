/** What the Bluetooth library hands to this service, seen from outside. */
module Bluetooth {
  import opened Prelude

  datatype Address = Address(text: string)

  /** One entry of a scan result. */
  datatype Discovered = Discovered(name: string, address: Address, manufacturerData: map<nat, seq<nat>>)

  /** bluetooth.ParseAddress for the platform at hand: any function will do. */
  type AddressParser = string -> Option<Address>
}
