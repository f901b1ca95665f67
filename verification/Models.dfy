/** The event, as every component of the pipeline passes it on. */
module Models {

  datatype Event = Event(
    event_id: string, event_type: string, user_id: string, source_url: string,
    timestamp: int, received_at: int, metadata: string)
}
