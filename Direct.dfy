/**
 * The Direct transcoder: the pass-through strategy of the streaming service.
 * It records that no server-side adaptation takes place and feeds the raw
 * source reader into the session's pipeline.
 */
module Transcoders {
  import opened Options
  import opened Streaming

  /** The path of the retrieval endpoint, placed between the service root and the identifier. */
  const RetrieveStreamPath: string := "StreamingService/stream/RetrieveStream?identifier="

  /**
   * Recovers the session identifier from a retrieval URL issued under `root`;
   * None when the URL does not start with the service root and endpoint path.
   */
  function ParseStreamURL(root: string, url: string): (id: Option<string>)
    ensures id.Some? <==> root + RetrieveStreamPath <= url
    ensures id.Some? ==> url == root + RetrieveStreamPath + id.value
  {
    var prefix := root + RetrieveStreamPath;
    if prefix <= url then Some(url[|prefix|..]) else None
  }

  class Direct {
    var profile: TranscoderProfile
    var source: MediaSource
    var mediaInfo: WebMediaInfo
    var identifier: string

    constructor (profile: TranscoderProfile, source: MediaSource, mediaInfo: WebMediaInfo, identifier: string)
      ensures this.profile == profile && this.source == source
      ensures this.mediaInfo == mediaInfo && this.identifier == identifier
    {
      this.profile := profile;
      this.source := source;
      this.mediaInfo := mediaInfo;
      this.identifier := identifier;
    }

    /**
     * The locator the retrieval call uses for this session. `root` is the
     * service's current base address, which the hosting layer supplies.
     */
    function GetStreamURL(root: string): (url: string)
      reads this
      ensures ParseStreamURL(root, url) == Some(identifier)
      ensures |url| == |root| + |RetrieveStreamPath| + |identifier|
      ensures url[|url| - |identifier|..] == identifier
    {
      root + RetrieveStreamPath + identifier
    }

    /**
     * Sets up the session's pipeline. Profile, media info and `position` are
     * ignored: the verdict is always "not supported" (no adaptation) and the
     * single stage added is the source's reader at priority 1.
     */
    method BuildPipeline(context: StreamContext, position: int)
      modifies context.transcodingInfo, context.pipeline
      ensures context.transcodingInfo.supported == false
      ensures context.pipeline.stages == old(context.pipeline.stages) + [Stage(source.GetInputReaderUnit(), 1)]
      ensures |context.pipeline.stages| == |old(context.pipeline.stages)| + 1
      ensures unchanged(this) && unchanged(context)
    {
      context.transcodingInfo.supported := false;
      context.pipeline.AddDataUnit(source.GetInputReaderUnit(), 1);
    }
  }

  /** Two transcoders with the same identifier give the same URL, whatever their source, profile or media info. */
  lemma StreamURLDependsOnlyOnIdentifier(root: string, a: Direct, b: Direct)
    requires a.identifier == b.identifier
    ensures a.GetStreamURL(root) == b.GetStreamURL(root)
  {
  }

  /** Under one root, distinct session identifiers never share a URL. */
  lemma StreamURLInjective(root: string, a: Direct, b: Direct)
    requires a.identifier != b.identifier
    ensures a.GetStreamURL(root) != b.GetStreamURL(root)
  {
    var ua, ub := a.GetStreamURL(root), b.GetStreamURL(root);
    assert ParseStreamURL(root, ua) == Some(a.identifier);
    assert ParseStreamURL(root, ub) == Some(b.identifier);
  }

  /**
   * BuildPipeline has the same effect for any two transcoders over the same
   * source, whatever their profiles, media info, identifiers and positions.
   */
  method BuildPipelineIgnoresArguments(d1: Direct, d2: Direct, c1: StreamContext, c2: StreamContext, p1: int, p2: int)
    requires d1.source == d2.source
    requires c1.transcodingInfo != c2.transcodingInfo && c1.pipeline != c2.pipeline
    requires c1.pipeline.stages == c2.pipeline.stages
    modifies c1.transcodingInfo, c1.pipeline, c2.transcodingInfo, c2.pipeline
    ensures c1.transcodingInfo.supported == c2.transcodingInfo.supported == false
    ensures c1.pipeline.stages == c2.pipeline.stages
  {
    d1.BuildPipeline(c1, p1);
    d2.BuildPipeline(c2, p2);
  }
}
