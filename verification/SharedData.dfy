/** What the threads share: the customer's package and the mode. */
module SharedData {
  import opened Poses

  /** `uint32_t` */
  type DmId = id: nat | id < 0x1_0000_0000

  const UINT32_MAX: DmId := 0xFFFF_FFFF

  const RECORDING: nat := 0xff
  const LOCALIZATION: nat := 0xfe
  const INIT: nat := 0xfd

  datatype Package = Package(dmId: DmId, x: real, y: real, a: real)

  const ZERO := Package(0, 0.0, 0.0, 0.0)

  /** A package as published: its three deviations change sign. */
  function Negated(p: Package): Package {
    Package(p.dmId, -p.x, -p.y, -p.a)
  }

  function Deviation(p: Package): Pose {
    Pose(p.x, p.y, p.a)
  }
}
