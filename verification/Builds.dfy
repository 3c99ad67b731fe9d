/** The two builds of the boot loader and what they make of a label: Method A keeps it as an offset in segment CodeA,
    Method B adds the load address and uses the flat segment CodeB. */
module Builds {

  datatype Build = MethodA | MethodB

  /** The EIP a build gives to the code at `offset` in the image. */
  function EipOf(build: Build, offset: int): int {
    match build case MethodA => offset case MethodB => 0x60000 + offset
  }

  /** `PM_CODE_SEL`. */
  function CodeSel(build: Build): nat { match build case MethodA => 0x08 case MethodB => 0x10 }

  /** The EIPs of three tasks at the given offsets in the image. */
  function Eips(build: Build, offsets: seq<int>): seq<int>
    requires |offsets| == 3
  {
    [EipOf(build, offsets[0]), EipOf(build, offsets[1]), EipOf(build, offsets[2])]
  }
}
