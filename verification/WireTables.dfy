/**
 The shapes of the record and enum converters of the bindings, case for case and field for field: what
 each `read` expects in order, name, tag and width, and what its `write` gives.
 */
module WireTables {
  import opened WireCodec
  import opened WireTypes

  function CacheIdentityRule(): Shape {
    Struct([Field("domains", Sequence(String)), Field("queryParameters", Sequence(String))])
  }
  function CrossfadeSettings(): Shape {
    Struct([Field("duration", F32), Field("curve", CrossfadeCurve()), Field("depth", F32), Field("position", F32)])
  }
  function ItemConfig(): Shape {
    Struct([Field("abrMode", Optional(AbrMode())), Field("audioId", Optional(U64)),
      Field("headers", Optional(StringMap)), Field("uuidI64", Optional(I64)), Field("url", String),
      Field("isLiveStream", Bool), Field("preferredPeakBitrate", F64), Field("preferredPeakBitrateExpensive", F64)])
  }
  function ItemLoadResult(): Shape { Struct([Field("hasProtectedContent", Bool), Field("isPlayable", Bool)]) }
  function ItemState(): Shape {
    Struct([Field("status", ItemStatus()), Field("durationSeconds", Optional(F64)), Field("error", Optional(String)),
      Field("loadedRanges", Sequence(TimeRange()))])
  }
  function KeyOptions(): Shape { Struct([Field("rules", Sequence(KeyRule()))]) }
  function KeyRule(): Shape {
    Struct([Field("processor", Object), Field("headers", Optional(StringMap)),
      Field("queryParams", Optional(StringMap)), Field("salt", Optional(String)), Field("domains", Sequence(String))])
  }
  function PlayerConfig(): Shape {
    Struct([Field("store", RustObject), Field("keyOptions", KeyOptions()), Field("eqBandCount", U32),
      Field("authToken", String), Field("playingRate", F32), Field("playbackOrder", PlaybackOrder()),
      Field("actionAtItemEnd", ActionAtItemEnd()), Field("crossfadeSettings", CrossfadeSettings())])
  }
  function PlayerSnapshot(): Shape {
    Struct([Field("status", PlayerStatus()), Field("currentTime", Optional(F64)), Field("duration", Optional(F64)),
      Field("isMuted", Bool), Field("playingRate", F32), Field("rate", F32), Field("volume", F32)])
  }
  function TimeRange(): Shape { Struct([Field("durationSeconds", F64), Field("startSeconds", F64)]) }
  function Variant(): Shape {
    Struct([Field("name", Optional(String)), Field("index", U32), Field("bandwidthBps", U64)])
  }
  function AbrMode(): Shape {
    Enum([
      Case("auto", []),
      Case("manual", [Field("variantIndex", U32)])])
  }
  function ActionAtItemEnd(): Shape { Tags(["advance", "pause", "none", "unknown"]) }
  function AdvanceReason(): Shape {
    Tags(["initialLoad", "naturalEof", "crossfadePreArm", "userSelect", "userNext", "userPrev", "trackFailed",
      "removedCurrent", "repeat", "cancelled", "unknown"])
  }
  function AssetLayoutTarget(): Shape { Tags(["file", "hls"]) }
  function AssetResource(): Shape {
    Enum([
      Case("source", [Field("extension", String)]),
      Case("url", [Field("url", String)]),
      Case("named", [Field("namespace", String), Field("name", String)])])
  }
  function AssetSource(): Shape {
    Enum([
      Case("remote", [Field("url", String), Field("discriminator", Optional(String))]),
      Case("local", [Field("path", String)])])
  }
  function AudioCodecKind(): Shape {
    Tags(["aacLc", "aacHe", "aacHeV2", "mp3", "flac", "vorbis", "opus", "alac", "pcm", "adpcm", "ape", "unknown"])
  }
  function CancelReason(): Shape { Tags(["epochCancel", "peerCancel", "downloaderShutdown", "beforeStart"]) }
  function ContainerKind(): Shape {
    Tags(["mp4", "fmp4", "mpegTs", "mpegAudio", "adts", "flac", "wav", "ogg", "caf", "mkv", "aiff", "ape", "unknown"])
  }
  function CrossfadeCurve(): Shape { Tags(["linear", "equalPower", "unknown"]) }
  function DecodeErrorClass(): Shape { Tags(["interrupted", "variantChange", "other", "unknown"]) }
  function DecodeErrorKind(): Shape {
    Tags(["io", "unsupportedCodec", "unsupportedContainer", "invalidData", "seekFailed", "seekOutOfRange", "parse",
      "probeFailed", "backendUnavailable", "invalidSampleRate", "backendStatus", "interrupted", "backend", "unknown"])
  }
  function DecoderBackend(): Shape { Tags(["symphonia", "apple", "android", "unknown"]) }
  function DecoderChangeCause(): Shape {
    Tags(["initial", "variantSwitch", "formatBoundary", "hostRateChange", "unknown"])
  }
  function DuckingMode(): Shape { Tags(["off", "soft", "hard"]) }
  function Error(): Shape {
    Enum([
      Case("NotReady", []),
      Case("ItemFailed", [Field("reason", String)]),
      Case("SeekFailed", [Field("reason", String)]),
      Case("EngineNotRunning", []),
      Case("InvalidArgument", [Field("reason", String)]),
      Case("Internal", [Field("description", String)])])
  }
  function EvictReason(): Shape { Tags(["quotaBytes", "quotaAssets", "displaced", "unknown"]) }
  function FrameDomain(): Shape { Tags(["source", "output", "unknown"]) }
  function InterruptionKind(): Shape {
    Enum([
      Case("began", []),
      Case("ended", [Field("shouldResume", Bool)])])
  }
  function ItemEvent(): Shape {
    Enum([
      Case("durationChanged", [Field("seconds", F64)]),
      Case("loadedRangesChanged", [Field("ranges", Sequence(TimeRange()))]),
      Case("statusChanged", [Field("status", ItemStatus())]),
      Case("variantsDiscovered", [Field("variants", Sequence(Variant()))]),
      Case("variantSelected", [Field("variant", Variant())]),
      Case("variantApplied", [Field("variant", Variant())]),
      Case("didReachEnd", []),
      Case("didFail", []),
      Case("didStall", []),
      Case("error", [Field("error", String)]),
      Case("decoderChanged", [Field("backend", DecoderBackend()), Field("codec", Optional(AudioCodecKind())),
        Field("container", Optional(ContainerKind())), Field("sampleRate", U32), Field("channels", U16),
        Field("bitDepth", Optional(U16)), Field("bitrate", Optional(U32)), Field("cause", DecoderChangeCause()),
        Field("variant", Optional(U32)), Field("baseOffset", U64), Field("durationSeconds", Optional(F64)),
        Field("gaplessLeading", U64), Field("gaplessTrailing", U64), Field("hasGapless", Bool)]),
      Case("decodeError", [Field("class", DecodeErrorClass()), Field("kind", DecodeErrorKind()),
        Field("codec", Optional(AudioCodecKind())), Field("detail", String)]),
      Case("gaplessResolved", [Field("leadingFrames", U64), Field("trailingFrames", U64),
        Field("domain", FrameDomain()), Field("codec", Optional(AudioCodecKind())), Field("sampleRate", U32)]),
      Case("resamplerConfigured", [Field("backend", ResamplerKind()), Field("inputRate", U32),
        Field("outputRate", U32), Field("channels", U16), Field("bypassed", Bool)]),
      Case("audioFormatDetected", [Field("channels", U16), Field("sampleRate", U32)]),
      Case("audioFormatChanged", [Field("oldChannels", U16), Field("oldSampleRate", U32), Field("newChannels", U16),
        Field("newSampleRate", U32)]),
      Case("seekComplete", [Field("positionSeconds", F64)]),
      Case("seekRejected", [Field("targetSeconds", F64)]),
      Case("decoderReady", [Field("baseOffset", U64), Field("variant", Optional(U32))]),
      Case("trackFailed", [Field("reason", TrackFailureKind())]),
      Case("underrunStarted", [Field("positionMs", U64)]),
      Case("underrunEnded", [Field("positionMs", U64)]),
      Case("bufferHealth", [Field("bufferedMs", U64), Field("decodedFrontierMs", U64)]),
      Case("engineLoad", [Field("load", F32), Field("msPerChunk", F32), Field("realtimeFactor", F32)]),
      Case("playbackResamplerConfigured",
        [Field("backend", PlaybackResamplerKind()), Field("hostSampleRate", U32), Field("sourceSampleRate", U32),
          Field("active", Bool)]),
      Case("hlsCacheComplete", [Field("totalBytes", Optional(U64))]),
      Case("downloadStarted", [Field("requestId", U64), Field("waitInQueueSeconds", F64)]),
      Case("downloadSlow", [Field("requestId", U64), Field("elapsedSeconds", F64)]),
      Case("downloadCompleted", [Field("requestId", U64), Field("bytesTransferred", U64),
        Field("durationSeconds", F64), Field("bandwidthBps", U64)]),
      Case("downloadRetrying", [Field("requestId", U64), Field("attempt", U32), Field("maxRetries", U32),
        Field("error", String), Field("backoffSeconds", F64)]),
      Case("downloadBodyStalled", [Field("requestId", U64), Field("consumed", U64), Field("expected", Optional(U64)),
        Field("stallSeconds", F64)]),
      Case("downloadBodyResumed",
        [Field("requestId", U64), Field("resumeNumber", U32), Field("fromOffset", U64), Field("honouredRange", Bool)]),
      Case("downloadRetryExhausted",
        [Field("requestId", U64), Field("maxRetries", U32), Field("consumed", U64), Field("error", String)]),
      Case("downloadFirstByte", [Field("requestId", U64), Field("ttfbSeconds", F64), Field("status", U16),
        Field("partial", Bool)]),
      Case("downloadCancelled", [Field("requestId", U64), Field("reason", CancelReason()),
        Field("bytesTransferred", U64)]),
      Case("fileOpened", [Field("codec", Optional(AudioCodecKind())), Field("container", Optional(ContainerKind())),
        Field("totalBytes", Optional(U64)), Field("cached", Bool)]),
      Case("fileTotalBytesResolved", [Field("totalBytes", U64), Field("source", TotalBytesSource())]),
      Case("fileCacheComplete", [Field("totalBytes", U64)]),
      Case("drmKeyFetchFailed", [Field("keyHost", Optional(String)), Field("stage", KeyFailureStage()),
        Field("detail", String)]),
      Case("drmKeyAcquired", [Field("keyHost", Optional(String)), Field("source", KeySource()), Field("bytes", U64),
        Field("latencyMs", Optional(U64))]),
      Case("drmSegmentDecryptFailed", [Field("variant", U32), Field("segmentIndex", U32), Field("detail", String)])])
  }
  function ItemStatus(): Shape { Tags(["unknown", "readyToPlay", "failed"]) }
  function KeyFailureStage(): Shape { Tags(["network", "bodyCollect", "processor", "missing", "unknown"]) }
  function KeySource(): Shape { Tags(["network", "diskCache", "memCache", "unknown"]) }
  function PlaybackOrder(): Shape { Tags(["sequential", "shuffle", "unknown"]) }
  function PlaybackResamplerKind(): Shape { Tags(["rubato", "glide", "none", "unknown"]) }
  function PlayerEvent(): Shape {
    Enum([
      Case("timeChanged", [Field("seconds", F64)]),
      Case("rateChanged", [Field("rate", F32)]),
      Case("currentItemChanged", [Field("itemId", Optional(U64))]),
      Case("statusChanged", [Field("status", PlayerStatus())]),
      Case("timeControlStatusChanged", [Field("status", TimeControlStatus())]),
      Case("error", [Field("error", String)]),
      Case("durationChanged", [Field("seconds", F64)]),
      Case("bufferedDurationChanged", [Field("seconds", F64)]),
      Case("volumeChanged", [Field("volume", F32)]),
      Case("muteChanged", [Field("muted", Bool)]),
      Case("itemDidPlayToEnd", []),
      Case("itemDidFail", [Field("itemId", Optional(U64))]),
      Case("trackStatusChanged", [Field("itemId", U64), Field("status", TrackStatus())]),
      Case("queueEnded", []),
      Case("crossfadeStarted", [Field("settings", CrossfadeSettings())]),
      Case("crossfadeSettingsChanged", [Field("settings", CrossfadeSettings())]),
      Case("playbackOrderChanged", [Field("order", PlaybackOrder())]),
      Case("actionAtItemEndChanged", [Field("action", ActionAtItemEnd())]),
      Case("trackAdded", [Field("itemId", U64), Field("index", U64)]),
      Case("trackRemoved", [Field("itemId", U64)]),
      Case("trackLoadFailed", [Field("itemId", U64), Field("reason", String), Field("autoSkipped", Bool)]),
      Case("repeatModeChanged", [Field("mode", RepeatMode())]),
      Case("nextTrackReady", [Field("itemId", U64), Field("index", U64)]),
      Case("currentItemAdvanced", [Field("itemId", Optional(U64)), Field("reason", AdvanceReason())]),
      Case("engineStarted", []),
      Case("engineStopped", []),
      Case("crossfadeCompleted", []),
      Case("crossfadeCancelled", []),
      Case("masterVolumeChanged", [Field("volume", F32)]),
      Case("audioRouteChanged", [Field("reason", RouteChangeReason())]),
      Case("djBpmDetected", [Field("slot", U64), Field("bpm", F64), Field("confidence", Optional(F32)),
        Field("firstBeatOffsetSeconds", F64)]),
      Case("djKeylockChanged", [Field("on", Bool)]),
      Case("djStretchBackendChanged", [Field("kind", StretchBackendKind())]),
      Case("assetCommitted", [Field("assetRoot", String), Field("relPath", String), Field("finalLen", Optional(U64))]),
      Case("assetFailed", [Field("assetRoot", String), Field("relPath", String), Field("reason", String)]),
      Case("assetEvicted", [Field("assetRoot", String), Field("reason", EvictReason())])])
  }
  function PlayerStatus(): Shape { Tags(["unknown", "readyToPlay", "failed"]) }
  function RepeatMode(): Shape { Tags(["off", "one", "all", "unknown"]) }
  function ResamplerKind(): Shape { Tags(["rubato", "apple", "glide", "none", "unknown"]) }
  function RouteChangeReason(): Shape {
    Tags(["unknown", "newDeviceAvailable", "oldDeviceUnavailable", "categoryChange", "override", "wakeFromSleep",
      "noSuitableRouteForCategory", "routeConfigurationChange"])
  }
  function StretchBackendKind(): Shape { Tags(["signalsmith", "bungee", "unknown"]) }
  function TimeControlStatus(): Shape { Tags(["paused", "waitingToPlay", "playing"]) }
  function TotalBytesSource(): Shape { Tags(["committedLen", "contentLength", "unknown"]) }
  function TrackFailureKind(): Shape {
    Enum([
      Case("decode", [Field("kind", DecodeErrorKind())]),
      Case("recreateFailed", [Field("offset", U64)]),
      Case("sourceCancelled", []),
      Case("channelClosed", []),
      Case("render", []),
      Case("unknown", [])])
  }
  function TrackStatus(): Shape {
    Enum([
      Case("pending", []),
      Case("loading", []),
      Case("slow", []),
      Case("loaded", []),
      Case("failed", [Field("reason", String)]),
      Case("consumed", []),
      Case("cancelled", [])])
  }
  function Transition(): Shape {
    Enum([
      Case("none", []),
      Case("crossfade", []),
      Case("crossfadeWith", [Field("settings", CrossfadeSettings())])])
  }
}
