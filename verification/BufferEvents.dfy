/** What the buffer manager reports to the sink. */
module BufferEvents {
  datatype Event = UploadError | HistoricalUploadComplete(switchToStreaming: bool)
}
