/** The record the page templates render a chat message from
    (`view.MsgDisplayData`). The templates themselves are not modelled. */
module ChatView {
  import opened Base

  datatype MsgDisplayData = MsgDisplayData(roomId: Uuid, username: string, msg: string,
                                           time: string, mine: bool)
}
