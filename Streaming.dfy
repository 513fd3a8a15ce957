/**
 * The per-session state of the streaming service that a transcoder writes:
 * a StreamContext bundles the negotiation verdict (TranscodingInfo) and the
 * chain of processing stages (Pipeline). Only what the Direct transcoder
 * touches is modelled: the Supported flag and appending a data unit.
 */
module Streaming {

  /** A processing stage; the Direct transcoder only ever uses the input reader. */
  datatype DataUnit =
    | InputReaderUnit(locator: string)
    | ProcessingUnit(kind: string)

  /** A data unit together with the priority it was added at. */
  datatype Stage = Stage(unit: DataUnit, priority: int)

  /** The origin of the bytes of one media item; immutable for a session. */
  datatype MediaSource = MediaSource(locator: string) {
    /** The reader stage over this source. */
    function GetInputReaderUnit(): DataUnit {
      InputReaderUnit(locator)
    }
  }

  /** The device profile a transcoder was created for. */
  datatype TranscoderProfile = TranscoderProfile(name: string)

  /** Facts about the media item (container, duration) as the service reports them. */
  datatype WebMediaInfo = WebMediaInfo(container: string, durationMs: int)

  /** The outcome of capability negotiation for one session. */
  class TranscodingInfo {
    var supported: bool

    constructor (supported: bool)
      ensures this.supported == supported
    {
      this.supported := supported;
    }
  }

  /**
   * The chain of stages of one session, in the order they were added.
   * How the service orders stages by priority is not part of this model.
   */
  class Pipeline {
    var stages: seq<Stage>

    constructor ()
      ensures stages == []
    {
      stages := [];
    }

    method AddDataUnit(unit: DataUnit, priority: int)
      modifies this
      ensures stages == old(stages) + [Stage(unit, priority)]
    {
      stages := stages + [Stage(unit, priority)];
    }
  }

  /** Per-session execution state. */
  class StreamContext {
    const transcodingInfo: TranscodingInfo
    const pipeline: Pipeline

    constructor (transcodingInfo: TranscodingInfo, pipeline: Pipeline)
      ensures this.transcodingInfo == transcodingInfo && this.pipeline == pipeline
    {
      this.transcodingInfo := transcodingInfo;
      this.pipeline := pipeline;
    }
  }
}
