/** Hardware capability predicates: which raw pin numbers and drive-strength
    selectors exist on the selected chip. The table is a parameter, so every
    statement here holds for every target. */
module Capability {
  import opened Status

  /** The chips the exclusion tables are written for. */
  datatype Chip = Linux | Esp32 | Esp32S2 | Esp32S3 | Esp32C3 | Esp32C2

  /** `INVALID_GPIOS`: pins below the bound that are nevertheless unusable. */
  function InvalidGpios(chip: Chip): seq<uint32>
  {
    match chip
    case Linux => [24]
    case Esp32 => [24]
    case Esp32S2 => [22, 23, 24, 25]
    case Esp32S3 => [22, 23, 24, 25]
    case Esp32C3 => []
    case Esp32C2 => []
  }

  /** A capability table: `GPIO_NUM_MAX`, `GPIO_DRIVE_CAP_MAX` (both exclusive)
      and the exclusion list. */
  datatype Target = Target(numMax: uint32, driveCapMax: uint32, invalidGpios: seq<uint32>)

  /** The table a build for `chip` selects; the two bounds come from the
      driver headers and stay parameters. */
  function ForChip(chip: Chip, numMax: uint32, driveCapMax: uint32): Target
  {
    Target(numMax, driveCapMax, InvalidGpios(chip))
  }

  /** A pin exists iff it is below the bound and not excluded. */
  predicate ValidPin(t: Target, pin: uint32)
  {
    pin < t.numMax && pin !in t.invalidGpios
  }

  /** A drive-strength selector exists iff it is below the bound. */
  predicate ValidDriveStrength(t: Target, strength: uint32)
  {
    strength < t.driveCapMax
  }

  /** The scan over the exclusion list, from position `i` on. */
  function Listed(list: seq<uint32>, pin: uint32, i: nat): (r: bool)
    requires i <= |list|
    ensures r <==> pin in list[i..]
    decreases |list| - i
  {
    if i == |list| then false
    else
      assert list[i..] == [list[i]] + list[i + 1..];
      if pin == list[i] then true else Listed(list, pin, i + 1)
  }

  /** `isValidPin`: the bound is checked first, then the exclusion list. */
  function IsValidPin(t: Target, pin: uint32): (r: int)
    ensures r == ESP_OK <==> ValidPin(t, pin)
    ensures r != ESP_OK ==> r == ESP_ERR_INVALID_ARG
    ensures pin >= t.numMax ==> r == ESP_ERR_INVALID_ARG
  {
    if pin >= t.numMax then ESP_ERR_INVALID_ARG
    else if Listed(t.invalidGpios, pin, 0) then ESP_ERR_INVALID_ARG
    else ESP_OK
  }

  /** `isValidDriveStrengthPin`: only the bound is checked. */
  function IsValidDriveStrengthPin(t: Target, strength: uint32): (r: int)
    ensures r == ESP_OK <==> ValidDriveStrength(t, strength)
    ensures r != ESP_OK ==> r == ESP_ERR_INVALID_ARG
  {
    if strength >= t.driveCapMax then ESP_ERR_INVALID_ARG else ESP_OK
  }

  /** What the exclusion tables mean, chip by chip. */
  lemma ChipTables(numMax: uint32, driveCapMax: uint32, pin: uint32)
    ensures ValidPin(ForChip(Linux, numMax, driveCapMax), pin) <==> pin < numMax && pin != 24
    ensures ValidPin(ForChip(Esp32, numMax, driveCapMax), pin) <==> pin < numMax && pin != 24
    ensures ValidPin(ForChip(Esp32S2, numMax, driveCapMax), pin) <==> pin < numMax && !(22 <= pin <= 25)
    ensures ValidPin(ForChip(Esp32S3, numMax, driveCapMax), pin) <==> pin < numMax && !(22 <= pin <= 25)
    ensures ValidPin(ForChip(Esp32C3, numMax, driveCapMax), pin) <==> pin < numMax
    ensures ValidPin(ForChip(Esp32C2, numMax, driveCapMax), pin) <==> pin < numMax
  {
  }
}
