/** The error messages of the protocol decoder, and its success-or-error results. */
module Outcomes {

  datatype Error =
    | RiceEmptyBitstream
    | RiceInvalidK
    | RiceTruncatedBitstream
    | RiceTruncatedRemainder
    | HeaderTooShort
    | HeaderBadMagic
    | HeaderEscapeAndSilent
    | HeaderTruncatedTimestamp
    | HeaderDeltaBeforeMetadata
    | HeaderMalformedDelta
    | HeaderMalformedCount
    | HeaderMalformedRate
    | HeaderTruncatedChannels
    | HeaderTruncatedQuality
    | HeaderImplausibleMetadata
    | HeaderImplausibleCount
    | CodecUnknownProfile
    | CodecBadSampleCount
    | CodecEscapeTruncated
    | CodecEmptyPayload
    | StreamSilentWithBody
    | StreamNoShift
    | StreamShiftOutOfRange

  datatype Result<+T> = Ok(value: T) | Err(error: Error)
}
