/** The configuration record the preprocessor reads once at start-up and never changes.
    Numeric settings (loudness target, compressor threshold, ...) are kept as the text
    that ends up in the FFmpeg filter expression, since the program only inserts them. */
module AudioConfig {

  /** The `output` section: base container format, output directory, file-name suffix. */
  datatype OutputConfig = OutputConfig(format: string, directory: string, suffix: string)

  /** The top-level `compression` section: re-encode to `format` with `codec` at `bitrate`. */
  datatype CompressionConfig = CompressionConfig(enabled: bool, format: string, codec: string, bitrate: string)

  datatype NoiseReduction = NoiseReduction(enabled: bool, strength: string)

  datatype Normalization = Normalization(enabled: bool, targetLevel: string, truePeak: string)

  datatype DynamicCompression =
    DynamicCompression(enabled: bool, threshold: string, ratio: string, attack: string, release: string)

  datatype Equalizer = Equalizer(enabled: bool, preset: string)

  /** The `preprocessing` section, one record per optional filter stage. */
  datatype Preprocessing = Preprocessing(
    noiseReduction: NoiseReduction,
    normalization: Normalization,
    compression: DynamicCompression,
    eq: Equalizer)

  datatype Config = Config(output: OutputConfig, compression: CompressionConfig, preprocessing: Preprocessing)

  /** The configuration used when no configuration file is found. */
  const DefaultConfig: Config := Config(
    OutputConfig("wav", "processed_audio", "_processed"),
    CompressionConfig(true, "m4a", "aac", "128k"),
    Preprocessing(
      NoiseReduction(true, "medium"),
      Normalization(true, "-16", "-1.5"),
      DynamicCompression(false, "-20", "4", "5", "50"),
      Equalizer(false, "speech")))
}
