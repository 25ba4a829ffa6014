/** What several components share: the state of a connection (src/net/TcpConnection.h) and
    the registration of a channel with its poller (src/net/poller/EpollPoller.cpp). */
module Common {

  datatype ConnState = Connecting | Connected | Disconnecting | Disconnected

  /** Channel::index_: unknown to the poller, in the kernel's set, or only in channels_. */
  datatype Index = New | Added | Deleted

  /** What EPollPoller::updateChannel does to the index, for a channel with no interest left
      or with some. */
  function NextIndex(index: Index, none: bool): Index {
    match index
    case Added => if none then Deleted else Added
    case _ => Added
  }

  function Max(a: int, b: int): int {
    if a < b then b else a
  }
}
