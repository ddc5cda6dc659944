/** The packet that both HTTP protocols assemble and hand to the application. */
module HttpPackets {
  import opened ByteBuffers

  class HttpPacket {
    var data: Bytes
    var continuation: bool
    var continued: bool
    var controlCode: nat

    constructor ()
      ensures data == [] && !continuation && !continued && controlCode == 0
    {
      data, continuation, continued, controlCode := [], false, false, 0;
    }
  }
}
