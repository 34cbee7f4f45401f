/** A suspended thread (`SuspendedThread` in vm.rs): everything saved while another thread runs. */
module Threads {
  import opened Memory
  import opened Heaps

  /** The bytes and bounds of a frame stack, as moved in and out of the running thread. */
  datatype FrameImage = FrameImage(data: Buffer, currentBase: nat, currentSize: nat)

  datatype SuspendedThread = SuspendedThread(
    frames: FrameImage,
    mp: Buffer,
    pc: nat,
    pid: int,
    heapRefs: seq<(HeapId, nat)>,
    lastError: string,
    currentLoadedModule: Option<nat>,
    callerMpStack: seq<(nat, Buffer)>,
    blockedOn: Option<HeapId>)
}
