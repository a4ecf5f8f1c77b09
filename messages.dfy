/** The messages the biometric-reader and lawyer forms show. A shown message is one of these; no
    message (the empty string in the interface) is `None`. */
module Messages {

  datatype Message =
    | SerialRequired
    | SerialTaken
    | DeviceCreateFailed
    | DeviceUpdateFailed
    | NameRequired
    | NameTaken
    | LawyerUpdateFailed

  /** The text shown for each message. */
  function Text(m: Message): string {
    match m
    case SerialRequired => "El número de serie es requerido"
    case SerialTaken => "Este número de serie ya existe"
    case DeviceCreateFailed => "Error al crear el dispositivo. Por favor, inténtalo de nuevo."
    case DeviceUpdateFailed => "Error al actualizar el dispositivo. Por favor, inténtalo de nuevo."
    case NameRequired => "El nombre es requerido"
    case NameTaken => "Esta persona ya existe"
    case LawyerUpdateFailed => "Error al actualizar la persona. Por favor, inténtalo de nuevo."
  }
}
